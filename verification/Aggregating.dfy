/**
 The worker's aggregation step: fetched data is dealt out to requests for single hosts, for
 datacenters and for the whole metahost.
 */
module Aggregating {
  import opened Sums
  import opened Wrappers
  import opened Multimetrics

  /** The name of an aggregate, of a group of hosts, of a host or of the metahost. */
  datatype Name = Name(text: string)

  /** What the step reads off a plugin config; `None` is a value that is missing or of the wrong type. */
  datatype PluginConfig = PluginConfig(encoded: Option<string>, kind: Option<string>, className: Option<string>,
                                       perHost: Option<bool>, skipPerDatacenter: Option<bool>)

  datatype Level = Host | Datacenter | Metahost

  datatype Request<D> = Request(level: Level, aggregate: Name, name: Name, metahost: Name, config: string,
                                className: string, payload: seq<D>)

  /** `data` is keyed by host and aggregate name, joined by a semicolon. */
  datatype Task<D> = Task(data: map<string, D>, hosts: map<Name, seq<Name>>, metahost: Name)

  // ----- the requests

  /** What f yields for the first k elements, one after the other. */
  function Gather<A, T>(f: A -> seq<T>, xs: seq<A>, k: nat): seq<T>
    requires k <= |xs|
  {
    if k == 0 then [] else Gather(f, xs, k - 1) + f(xs[k - 1])
  }

  function GatherAll<A, T>(f: A -> seq<T>, xs: seq<A>): seq<T> {
    Gather(f, xs, |xs|)
  }

  lemma {:induction false} GatherPrefix<A, T>(f: A -> seq<T>, xs: seq<A>, ys: seq<A>, k: nat)
    requires k <= |xs| && xs <= ys
    ensures Gather(f, xs, k) == Gather(f, ys, k)
  {
    if k > 0 {
      GatherPrefix(f, xs, ys, k - 1);
    }
  }

  lemma GatherAppend<A, T>(f: A -> seq<T>, xs: seq<A>, x: A)
    ensures GatherAll(f, xs + [x]) == GatherAll(f, xs) + f(x)
  {
    GatherPrefix(f, xs, xs + [x], |xs|);
  }

  function Fetched<D>(task: Task<D>, host: Name, name: Name): Option<D> {
    var key := host.text + ";" + name.text;
    if key in task.data then Some(task.data[key]) else None
  }

  function HostsOf<D>(task: Task<D>, group: Name): seq<Name> {
    if group in task.hosts then task.hosts[group] else []
  }

  /** What was fetched from a host: nothing or one piece of data. */
  function HostData<D>(task: Task<D>, name: Name): Name -> seq<D> {
    (host: Name) => match Fetched(task, host, name) case Some(d) => [d] case None => []
  }

  function GroupData<D>(task: Task<D>, name: Name): Name -> seq<D> {
    (group: Name) => GatherAll(HostData(task, name), HostsOf(task, group))
  }

  predicate Usable(cfg: PluginConfig) {
    cfg.encoded.Some? && cfg.kind.Some? && cfg.className.Some?
  }

  function RequestFor<D>(task: Task<D>, aggregate: Name, cfg: PluginConfig, level: Level, name: Name,
                         payload: seq<D>): Request<D>
    requires Usable(cfg)
  {
    Request(level, aggregate, name, task.metahost, cfg.encoded.value, cfg.className.value, payload)
  }

  /** At most one request, and none for an empty payload or one that is not wanted. */
  function RequestIf<D>(wanted: bool, task: Task<D>, aggregate: Name, cfg: PluginConfig, level: Level, name: Name,
                        payload: seq<D>): seq<Request<D>>
    requires Usable(cfg)
  {
    if wanted && payload != [] then [RequestFor(task, aggregate, cfg, level, name, payload)] else []
  }

  /** Requests below the metahost are issued as the config says; a value that is no boolean counts as false. */
  predicate Issued(cfg: PluginConfig, level: Level) {
    match level
    case Host => cfg.perHost == Some(true)
    case Datacenter => cfg.skipPerDatacenter != Some(true)
    case Metahost => true
  }

  function HostRequests<D>(task: Task<D>, name: Name, cfg: PluginConfig): Name -> seq<Request<D>>
    requires Usable(cfg)
  {
    (host: Name) => RequestIf(Issued(cfg, Host), task, name, cfg, Host, host, HostData(task, name)(host))
  }

  function GroupRequests<D>(task: Task<D>, name: Name, cfg: PluginConfig): Name -> seq<Request<D>>
    requires Usable(cfg)
  {
    (group: Name) =>
      GatherAll(HostRequests(task, name, cfg), HostsOf(task, group))
      + RequestIf(Issued(cfg, Datacenter), task, name, cfg, Datacenter, group, GroupData(task, name)(group))
  }

  /** All requests for one aggregate; a config that cannot be packed or has no type or class gives none. */
  function NameRequests<D>(task: Task<D>, name: Name, cfg: PluginConfig, groups: seq<Name>): seq<Request<D>> {
    if !Usable(cfg) then []
    else
      GatherAll(GroupRequests(task, name, cfg), groups)
      + RequestIf(true, task, name, cfg, Metahost, task.metahost, GatherAll(GroupData(task, name), groups))
  }

  function ConfigOf(configs: map<Name, PluginConfig>, name: Name): PluginConfig {
    if name in configs then configs[name] else PluginConfig(None, None, None, None, None)
  }

  /** One aggregate, and the order in which its groups came up. */
  datatype Run = Run(name: Name, groups: seq<Name>)

  function RunRequests<D>(task: Task<D>, configs: map<Name, PluginConfig>): Run -> seq<Request<D>> {
    (run: Run) => NameRequests(task, run.name, ConfigOf(configs, run.name), run.groups)
  }

  /** Every aggregate comes up once, and for each of them every group once. */
  ghost predicate Ordering<D>(task: Task<D>, configs: map<Name, PluginConfig>, runs: seq<Run>, names: seq<Name>) {
    && Walk(names, configs.Keys) && |runs| == |names|
    && forall i :: 0 <= i < |runs| ==> runs[i].name == names[i] && Walk(runs[i].groups, task.hosts.Keys)
  }

  /** The requests of one aggregate, the groups taken in some order. */
  ghost predicate BuiltFor<D>(task: Task<D>, name: Name, cfg: PluginConfig, requests: seq<Request<D>>) {
    exists groups :: Walk(groups, task.hosts.Keys) && requests == NameRequests(task, name, cfg, groups)
  }

  /** The requests of all aggregates, aggregates and groups taken in some order. */
  ghost predicate Built<D>(task: Task<D>, configs: map<Name, PluginConfig>, requests: seq<Request<D>>) {
    exists runs: seq<Run>, names: seq<Name> ::
      Ordering(task, configs, runs, names) && requests == GatherAll(RunRequests(task, configs), runs)
  }

  // ----- the loops that build them

  method BuildGroup<D>(task: Task<D>, name: Name, cfg: PluginConfig, group: Name, aggParsingResults: seq<D>)
    returns (collected: seq<D>, requests: seq<Request<D>>)
    requires Usable(cfg)
    ensures collected == aggParsingResults + GroupData(task, name)(group)
    ensures requests == GroupRequests(task, name, cfg)(group)
  {
    var hosts := HostsOf(task, group);
    var subGroupParsingResults;
    collected, subGroupParsingResults, requests := CollectHosts(task, name, cfg, hosts, aggParsingResults);
    if |subGroupParsingResults| == 0 {
      return;
    }
    if cfg.skipPerDatacenter.Some? && cfg.skipPerDatacenter.value {
      return;
    }
    requests := requests + [RequestFor(task, name, cfg, Datacenter, group, subGroupParsingResults)];
  }

  method CollectHosts<D>(task: Task<D>, name: Name, cfg: PluginConfig, hosts: seq<Name>, aggParsingResults: seq<D>)
    returns (collected: seq<D>, subGroupParsingResults: seq<D>, requests: seq<Request<D>>)
    requires Usable(cfg)
    ensures subGroupParsingResults == GatherAll(HostData(task, name), hosts)
    ensures collected == aggParsingResults + subGroupParsingResults
    ensures requests == GatherAll(HostRequests(task, name, cfg), hosts)
  {
    collected, subGroupParsingResults, requests := aggParsingResults, [], [];
    for i := 0 to |hosts|
      invariant subGroupParsingResults == Gather(HostData(task, name), hosts, i)
      invariant collected == aggParsingResults + subGroupParsingResults
      invariant requests == Gather(HostRequests(task, name, cfg), hosts, i)
    {
      var data := Fetched(task, hosts[i], name);
      if data.None? {
        continue;
      }
      collected := collected + [data.value];
      subGroupParsingResults := subGroupParsingResults + [data.value];
      if cfg.perHost.None? || !cfg.perHost.value {
        continue;
      }
      requests := requests + [RequestFor(task, name, cfg, Host, hosts[i], [data.value])];
    }
  }

  method BuildName<D>(task: Task<D>, name: Name, cfg: PluginConfig) returns (requests: seq<Request<D>>)
    ensures BuiltFor(task, name, cfg, requests)
  {
    var order := Listed(task.hosts.Keys);
    requests := [];
    assert !Usable(cfg) ==> [] == NameRequests(task, name, cfg, order);
    if cfg.encoded.None? {
      return;
    }
    if cfg.kind.None? {
      return;
    }
    if cfg.className.None? {
      return;
    }
    requests := BuildGroups(task, name, cfg, order);
  }

  method BuildGroups<D>(task: Task<D>, name: Name, cfg: PluginConfig, order: seq<Name>)
    returns (requests: seq<Request<D>>)
    requires Usable(cfg)
    ensures requests == NameRequests(task, name, cfg, order)
  {
    var aggParsingResults: seq<D> := [];
    requests := [];
    for i := 0 to |order|
      invariant aggParsingResults == Gather(GroupData(task, name), order, i)
      invariant requests == Gather(GroupRequests(task, name, cfg), order, i)
    {
      var more;
      aggParsingResults, more := BuildGroup(task, name, cfg, order[i], aggParsingResults);
      requests := requests + more;
    }
    if |aggParsingResults| == 0 {
      return;
    }
    requests := requests + [RequestFor(task, name, cfg, Metahost, task.metahost, aggParsingResults)];
  }

  /** The requests of one aggregate, and the order in which its groups came up. */
  method BuildRun<D>(task: Task<D>, configs: map<Name, PluginConfig>, name: Name)
    returns (requests: seq<Request<D>>, ghost run: Run)
    requires name in configs
    ensures run.name == name && Walk(run.groups, task.hosts.Keys)
    ensures requests == RunRequests(task, configs)(run)
  {
    requests := BuildName(task, name, configs[name]);
    ghost var groups :| Walk(groups, task.hosts.Keys) && requests == NameRequests(task, name, configs[name], groups);
    run := Run(name, groups);
  }

  /** Every request the step issues, in the order it starts them. */
  method BuildRequests<D>(task: Task<D>, configs: map<Name, PluginConfig>) returns (requests: seq<Request<D>>)
    ensures Built(task, configs, requests)
  {
    var names := Listed(configs.Keys);
    requests := [];
    ghost var runs: seq<Run> := [];
    for i := 0 to |names|
      invariant |runs| == i
      invariant forall j :: 0 <= j < i ==> runs[j].name == names[j] && Walk(runs[j].groups, task.hosts.Keys)
      invariant requests == GatherAll(RunRequests(task, configs), runs)
    {
      WalkStep(names, i, |names|);
      var more;
      ghost var run;
      more, run := BuildRun(task, configs, names[i]);
      GatherAppend(RunRequests(task, configs), runs, run);
      requests := requests + more;
      runs := runs + [run];
    }
    assert Ordering(task, configs, runs, names);
  }

  // ----- what the requests carry

  predicate Concerns<D>(r: Request<D>, level: Level, aggregate: Name) {
    r.level == level && r.aggregate == aggregate
  }

  /** The payloads of the requests of one level for one aggregate, in order. */
  function Payloads<D>(requests: seq<Request<D>>, level: Level, aggregate: Name): seq<seq<D>> {
    if requests == [] then []
    else
      var last := requests[|requests| - 1];
      Payloads(requests[..|requests| - 1], level, aggregate)
      + if Concerns(last, level, aggregate) then [last.payload] else []
  }

  lemma {:induction false} PayloadsConcat<D>(xs: seq<Request<D>>, ys: seq<Request<D>>, level: Level, aggregate: Name)
    ensures Payloads(xs + ys, level, aggregate) == Payloads(xs, level, aggregate) + Payloads(ys, level, aggregate)
  {
    if ys == [] {
      assert xs + ys == xs;
    } else {
      assert (xs + ys)[..|xs + ys| - 1] == xs + ys[..|ys| - 1];
      PayloadsConcat(xs, ys[..|ys| - 1], level, aggregate);
    }
  }

  lemma {:induction false} FlattenConcat<T>(xs: seq<seq<T>>, ys: seq<seq<T>>)
    ensures Flatten(xs + ys) == Flatten(xs) + Flatten(ys)
  {
    if ys == [] {
      assert xs + ys == xs;
    } else {
      var init, last := ys[..|ys| - 1], ys[|ys| - 1];
      assert (xs + ys)[..|xs + ys| - 1] == xs + init && (xs + ys)[|xs + ys| - 1] == last;
      FlattenConcat(xs, init);
      assert Flatten(xs) + Flatten(init) + last == Flatten(xs) + (Flatten(init) + last);
    }
  }

  /** Together the payloads are this data if any were issued; otherwise there are none. */
  ghost predicate Carry<D>(payloads: seq<seq<D>>, issued: bool, data: seq<D>) {
    if issued then Flatten(payloads) == data else payloads == []
  }

  lemma CarryOne<D>(wanted: bool, task: Task<D>, aggregate: Name, cfg: PluginConfig, level: Level, name: Name,
                    payload: seq<D>,
                    l: Level, a: Name)
    requires Usable(cfg)
    ensures var ps := Payloads(RequestIf(wanted, task, aggregate, cfg, level, name, payload), l, a);
      && ps == (if wanted && payload != [] && l == level && a == aggregate then [payload] else [])
      && Carry(ps, wanted && l == level && a == aggregate, payload)
  {
    var rs := RequestIf(wanted, task, aggregate, cfg, level, name, payload);
    if rs != [] {
      assert rs[..0] == [];
      FlattenOne(payload);
    }
  }

  lemma FlattenOne<T>(x: seq<T>)
    ensures Flatten([x]) == x
  {
    assert Flatten([x][..0]) == [];
  }

  function Paying<D>(level: Level, aggregate: Name): seq<Request<D>> -> seq<seq<D>> {
    (requests: seq<Request<D>>) => Payloads(requests, level, aggregate)
  }

  /** A function that takes concatenations to concatenations. */
  ghost predicate Concatenates<B(!new), T>(pay: seq<B> -> seq<T>) {
    pay([]) == [] && forall xs, ys {:trigger pay(xs + ys)} :: pay(xs + ys) == pay(xs) + pay(ys)
  }

  lemma PayingConcatenates<D(!new)>(level: Level, aggregate: Name)
    ensures Concatenates(Paying<D>(level, aggregate))
  {
    forall xs: seq<Request<D>>, ys: seq<Request<D>>
      ensures Paying<D>(level, aggregate)(xs + ys) == Paying<D>(level, aggregate)(xs) + Paying<D>(level, aggregate)(ys)
    {
      PayloadsConcat(xs, ys, level, aggregate);
    }
  }

  /** If every step's requests carry that step's data, all of them carry all data. */
  lemma {:induction false} CarryGather<B(!new), D>(f: Name -> seq<B>, g: Name -> seq<D>, pay: seq<B> -> seq<seq<D>>,
                                                   xs: seq<Name>, k: nat, issued: bool)
    requires k <= |xs| && Concatenates(pay) && forall x :: Carry(pay(f(x)), issued, g(x))
    ensures Carry(pay(Gather(f, xs, k)), issued, Gather(g, xs, k))
  {
    if k > 0 {
      CarryGather(f, g, pay, xs, k - 1, issued);
      FlattenConcat(pay(Gather(f, xs, k - 1)), pay(f(xs[k - 1])));
    }
  }

  lemma HostsCarry<D(!new)>(task: Task<D>, name: Name, cfg: PluginConfig, hosts: seq<Name>, level: Level,
                            aggregate: Name)
    requires Usable(cfg)
    ensures Carry(Payloads(GatherAll(HostRequests(task, name, cfg), hosts), level, aggregate),
                  aggregate == name && level.Host? && Issued(cfg, Host), GatherAll(HostData(task, name), hosts))
  {
    var f, g := HostRequests(task, name, cfg), HostData(task, name);
    var issued := aggregate == name && level.Host? && Issued(cfg, Host);
    PayingConcatenates<D>(level, aggregate);
    forall host ensures Carry(Paying(level, aggregate)(f(host)), issued, g(host)) {
      CarryOne(Issued(cfg, Host), task, name, cfg, Host, host, g(host), level, aggregate);
    }
    CarryGather(f, g, Paying(level, aggregate), hosts, |hosts|, issued);
  }

  lemma GroupCarries<D(!new)>(task: Task<D>, name: Name, cfg: PluginConfig, group: Name, level: Level, aggregate: Name)
    requires Usable(cfg)
    ensures Carry(Payloads(GroupRequests(task, name, cfg)(group), level, aggregate),
                  aggregate == name && !level.Metahost? && Issued(cfg, level), GroupData(task, name)(group))
  {
    var hosts, data := HostsOf(task, group), GroupData(task, name)(group);
    var singles := GatherAll(HostRequests(task, name, cfg), hosts);
    var one := RequestIf(Issued(cfg, Datacenter), task, name, cfg, Datacenter, group, data);
    HostsCarry(task, name, cfg, hosts, level, aggregate);
    CarryOne(Issued(cfg, Datacenter), task, name, cfg, Datacenter, group, data, level, aggregate);
    PayloadsConcat(singles, one, level, aggregate);
    FlattenConcat(Payloads(singles, level, aggregate), Payloads(one, level, aggregate));
  }

  lemma GroupsCarry<D(!new)>(task: Task<D>, name: Name, cfg: PluginConfig, groups: seq<Name>, level: Level,
                             aggregate: Name)
    requires Usable(cfg)
    ensures Carry(Payloads(GatherAll(GroupRequests(task, name, cfg), groups), level, aggregate),
                  aggregate == name && !level.Metahost? && Issued(cfg, level), GatherAll(GroupData(task, name), groups))
  {
    var issued := aggregate == name && !level.Metahost? && Issued(cfg, level);
    PayingConcatenates<D>(level, aggregate);
    forall group
      ensures Carry(Paying(level, aggregate)(GroupRequests(task, name, cfg)(group)), issued,
                    GroupData(task, name)(group))
    {
      GroupCarries(task, name, cfg, group, level, aggregate);
    }
    CarryGather(GroupRequests(task, name, cfg), GroupData(task, name), Paying(level, aggregate), groups,
                |groups|, issued);
  }

  /** What one aggregate's requests of one level carry, in terms of what was fetched. */
  ghost predicate Carried<D>(cfg: PluginConfig, data: seq<D>, level: Level, ps: seq<seq<D>>) {
    if !Usable(cfg) then ps == []
    else if level.Metahost? then ps == if data == [] then [] else [data]
    else Carry(ps, Issued(cfg, level), data)
  }

  lemma NameCarries<D(!new)>(task: Task<D>, name: Name, cfg: PluginConfig, groups: seq<Name>, level: Level,
                             aggregate: Name)
    ensures var ps := Payloads(NameRequests(task, name, cfg, groups), level, aggregate);
      if aggregate != name then ps == [] else Carried(cfg, GatherAll(GroupData(task, name), groups), level, ps)
  {
    if Usable(cfg) {
      var parts, data := GatherAll(GroupRequests(task, name, cfg), groups), GatherAll(GroupData(task, name), groups);
      var last := RequestIf(true, task, name, cfg, Metahost, task.metahost, data);
      GroupsCarry(task, name, cfg, groups, level, aggregate);
      CarryOne(true, task, name, cfg, Metahost, task.metahost, data, level, aggregate);
      PayloadsConcat(parts, last, level, aggregate);
      assert level.Metahost? || aggregate != name ==>
        Payloads(parts, level, aggregate) + Payloads(last, level, aggregate) == Payloads(last, level, aggregate);
      assert !level.Metahost? || aggregate != name ==>
        Payloads(parts, level, aggregate) + Payloads(last, level, aggregate) == Payloads(parts, level, aggregate);
    }
  }

  /** Among steps of which only one contributes anything, all together contribute what that one does. */
  lemma {:induction false} OnlyOneContributes<A, B(!new), T>(f: A -> seq<B>, pay: seq<B> -> seq<T>, xs: seq<A>,
                                                             k: nat, i: nat)
    requires i < |xs| && k <= |xs| && Concatenates(pay)
    requires forall j :: 0 <= j < |xs| && j != i ==> pay(f(xs[j])) == []
    ensures pay(Gather(f, xs, k)) == if i < k then pay(f(xs[i])) else []
  {
    if k > 0 {
      OnlyOneContributes(f, pay, xs, k - 1, i);
      assert pay(Gather(f, xs, k)) == pay(Gather(f, xs, k - 1)) + pay(f(xs[k - 1]));
    }
  }

  lemma NamesDiffer(names: seq<Name>, i: nat, j: nat)
    requires NoRepeats(names, |names|) && i < j < |names|
    ensures names[i] != names[j]
  {
    WalkPrefix(names, j + 1, |names|);
    WalkStep(names, i, j);
  }

  lemma RunCarries<D(!new)>(task: Task<D>, configs: map<Name, PluginConfig>, runs: seq<Run>, names: seq<Name>,
                            i: nat, level: Level)
    requires Ordering(task, configs, runs, names) && i < |runs|
    ensures var run := runs[i];
      Carried(ConfigOf(configs, run.name), GatherAll(GroupData(task, run.name), run.groups), level,
              Payloads(GatherAll(RunRequests(task, configs), runs), level, run.name))
  {
    var f, name := RunRequests(task, configs), runs[i].name;
    forall j | 0 <= j < |runs| && j != i ensures Paying(level, name)(f(runs[j])) == [] {
      if i < j { NamesDiffer(names, i, j); } else { NamesDiffer(names, j, i); }
      NameCarries(task, runs[j].name, ConfigOf(configs, runs[j].name), runs[j].groups, level, name);
    }
    PayingConcatenates<D>(level, name);
    OnlyOneContributes(f, Paying(level, name), runs, |runs|, i);
    NameCarries(task, name, ConfigOf(configs, name), runs[i].groups, level, name);
  }

  /** What was fetched for an aggregate, the groups taken in some order. */
  ghost predicate FetchedFor<D>(task: Task<D>, name: Name, data: seq<D>) {
    exists groups :: Walk(groups, task.hosts.Keys) && data == GatherAll(GroupData(task, name), groups)
  }

  lemma BuiltCarries<D(!new)>(task: Task<D>, configs: map<Name, PluginConfig>, requests: seq<Request<D>>, name: Name)
    returns (data: seq<D>)
    requires Built(task, configs, requests) && name in configs
    ensures FetchedFor(task, name, data)
    ensures forall level :: Carried(configs[name], data, level, Payloads(requests, level, name))
  {
    var runs: seq<Run>, names: seq<Name> :|
      Ordering(task, configs, runs, names) && requests == GatherAll(RunRequests(task, configs), runs);
    FirstsMembers(names, |names|);
    assert name in names[..|names|];
    var i :| 0 <= i < |names| && names[i] == name;
    data := GatherAll(GroupData(task, name), runs[i].groups);
    forall level ensures Carried(configs[name], data, level, Payloads(requests, level, name)) {
      RunCarries(task, configs, runs, names, i, level);
    }
  }

  /**
   Conservation through the worker.  Per aggregate, the metahost request carries exactly the
   concatenation of what its datacenter requests carry, and of what its host requests carry where
   those are issued: everything that was fetched.  It is the only metahost request of that aggregate,
   and it is missing only when there is nothing to carry.
   */
  lemma PayloadIsConserved<D(!new)>(task: Task<D>, configs: map<Name, PluginConfig>, requests: seq<Request<D>>,
                                    name: Name)
    requires Built(task, configs, requests) && name in configs
    ensures var cfg, whole := configs[name], Payloads(requests, Metahost, name);
      && |whole| <= 1 && [] !in whole
      && (Usable(cfg) ==> FetchedFor(task, name, Flatten(whole)))
      && (!Usable(cfg) ==> whole == [])
      && (cfg.skipPerDatacenter != Some(true) ==> Flatten(Payloads(requests, Datacenter, name)) == Flatten(whole))
      && (cfg.skipPerDatacenter == Some(true) ==> Payloads(requests, Datacenter, name) == [])
      && (cfg.perHost == Some(true) ==> Flatten(Payloads(requests, Host, name)) == Flatten(whole))
      && (cfg.perHost != Some(true) ==> Payloads(requests, Host, name) == [])
  {
    var data := BuiltCarries(task, configs, requests, name);
    LevelsAgree(configs[name], data, Payloads(requests, Metahost, name), Payloads(requests, Datacenter, name),
                Payloads(requests, Host, name));
  }

  lemma LevelsAgree<D>(cfg: PluginConfig, data: seq<D>, whole: seq<seq<D>>, datacenters: seq<seq<D>>,
                       hosts: seq<seq<D>>)
    requires Carried(cfg, data, Metahost, whole) && Carried(cfg, data, Datacenter, datacenters)
    requires Carried(cfg, data, Host, hosts)
    ensures |whole| <= 1 && [] !in whole && Flatten(whole) == (if Usable(cfg) then data else [])
    ensures if cfg.skipPerDatacenter == Some(true) then datacenters == [] else Flatten(datacenters) == Flatten(whole)
    ensures if cfg.perHost == Some(true) then Flatten(hosts) == Flatten(whole) else hosts == []
    ensures !Usable(cfg) ==> whole == []
  {
    FlattenOne(data);
  }

  /**
   So what Multimetrics makes of the metahost is what it makes of the datacenters' results taken
   together: sums and histogram counts of the metahost are the pointwise sums over its datacenters.
   */
  lemma MetahostAddsUpDatacenters(s: Settings, task: Task<Metrics>, configs: map<Name, PluginConfig>,
                                  requests: seq<Request<Metrics>>, name: Name)
    requires Built(task, configs, requests) && name in configs && configs[name].skipPerDatacenter != Some(true)
    ensures var datacenters := Each(Merging(s), Payloads(requests, Datacenter, name));
      Merge(s, Flatten(Payloads(requests, Metahost, name))) == Merge(s, datacenters)
  {
    PayloadIsConserved(task, configs, requests, name);
    MergedGroups(s, Payloads(requests, Datacenter, name));
  }

  // ----- what each request says

  /** What was fetched from these hosts for an aggregate, in the order of the hosts. */
  function DataOf<D>(task: Task<D>, hosts: seq<Name>, aggregate: Name): seq<D> {
    if hosts == [] then []
    else
      var key := hosts[0].text + ";" + aggregate.text;
      (if key in task.data then [task.data[key]] else []) + DataOf(task, hosts[1..], aggregate)
  }

  lemma {:induction false} DataOfOneMore<D>(task: Task<D>, hosts: seq<Name>, host: Name, aggregate: Name)
    ensures DataOf(task, hosts + [host], aggregate) == DataOf(task, hosts, aggregate) + DataOf(task, [host], aggregate)
  {
    if hosts == [] {
      assert hosts + [host] == [host];
    } else {
      assert (hosts + [host])[1..] == hosts[1..] + [host];
      DataOfOneMore(task, hosts[1..], host, aggregate);
    }
  }

  lemma {:induction false} GatheredData<D>(task: Task<D>, hosts: seq<Name>, aggregate: Name, k: nat)
    requires k <= |hosts|
    ensures Gather(HostData(task, aggregate), hosts, k) == DataOf(task, hosts[..k], aggregate)
  {
    if k > 0 {
      GatheredData(task, hosts, aggregate, k - 1);
      DataOfOneMore(task, hosts[..k - 1], hosts[k - 1], aggregate);
      assert hosts[..k] == hosts[..k - 1] + [hosts[k - 1]];
      assert DataOf(task, [hosts[k - 1]], aggregate) == HostData(task, aggregate)(hosts[k - 1]);
    }
  }

  lemma {:induction false} GatherMembers<A, T>(f: A -> seq<T>, xs: seq<A>, k: nat, y: T)
    requires k <= |xs|
    ensures y in Gather(f, xs, k) <==> exists i :: 0 <= i < k && y in f(xs[i])
  {
    if k > 0 {
      GatherMembers(f, xs, k - 1, y);
    }
  }

  lemma GatherSome<A, T>(f: A -> seq<T>, xs: seq<A>, y: T)
    ensures y in GatherAll(f, xs) <==> exists x :: x in xs && y in f(x)
  {
    GatherMembers(f, xs, |xs|, y);
  }

  /** The request was asked for by this config, and names it, its class and the metahost. */
  predicate Signed<D>(task: Task<D>, aggregate: Name, cfg: PluginConfig, r: Request<D>) {
    && r.aggregate == aggregate && r.metahost == task.metahost
    && cfg.encoded == Some(r.config) && cfg.className == Some(r.className) && cfg.kind.Some?
  }

  /** It is for one host, and carries what was fetched from it. */
  ghost predicate ForHost<D>(task: Task<D>, aggregate: Name, cfg: PluginConfig, r: Request<D>) {
    && r.level == Host && cfg.perHost == Some(true) && Signed(task, aggregate, cfg, r)
    && var key := r.name.text + ";" + aggregate.text; key in task.data && r.payload == [task.data[key]]
  }

  /** It is for one datacenter, and carries what was fetched from its hosts. */
  ghost predicate ForDatacenter<D>(task: Task<D>, aggregate: Name, cfg: PluginConfig, r: Request<D>) {
    && r.level == Datacenter && cfg.skipPerDatacenter != Some(true) && Signed(task, aggregate, cfg, r)
    && r.payload != [] && r.payload == DataOf(task, HostsOf(task, r.name), aggregate)
  }

  /** It is for the metahost, and carries what was fetched from all hosts. */
  ghost predicate ForMetahost<D>(task: Task<D>, aggregate: Name, cfg: PluginConfig, r: Request<D>) {
    && r.level == Metahost && Signed(task, aggregate, cfg, r) && r.name == task.metahost
    && r.payload != [] && FetchedFor(task, aggregate, r.payload)
  }

  lemma Requested<D>(wanted: bool, task: Task<D>, aggregate: Name, cfg: PluginConfig, level: Level, name: Name,
                     payload: seq<D>, r: Request<D>)
    requires Usable(cfg)
    ensures r in RequestIf(wanted, task, aggregate, cfg, level, name, payload) <==>
      && wanted && payload != [] && r.level == level && r.name == name && r.payload == payload
      && Signed(task, aggregate, cfg, r)
  {
    var one := RequestFor(task, aggregate, cfg, level, name, payload);
    if r.level == level && r.name == name && r.payload == payload && Signed(task, aggregate, cfg, r) {
      assert r == one;
    }
  }

  lemma HostAsked<D>(task: Task<D>, aggregate: Name, cfg: PluginConfig, hosts: seq<Name>, r: Request<D>)
    requires Usable(cfg)
    ensures r in GatherAll(HostRequests(task, aggregate, cfg), hosts) <==>
      r.name in hosts && ForHost(task, aggregate, cfg, r)
  {
    GatherSome(HostRequests(task, aggregate, cfg), hosts, r);
    forall host
      ensures r in HostRequests(task, aggregate, cfg)(host) <==> r.name == host && ForHost(task, aggregate, cfg, r)
    {
      HostAskedOnce(task, aggregate, cfg, host, r);
    }
  }

  lemma HostAskedOnce<D>(task: Task<D>, aggregate: Name, cfg: PluginConfig, host: Name, r: Request<D>)
    requires Usable(cfg)
    ensures r in HostRequests(task, aggregate, cfg)(host) <==> r.name == host && ForHost(task, aggregate, cfg, r)
  {
    Requested(Issued(cfg, Host), task, aggregate, cfg, Host, host, HostData(task, aggregate)(host), r);
  }

  lemma GroupAsked<D>(task: Task<D>, aggregate: Name, cfg: PluginConfig, group: Name, r: Request<D>)
    requires Usable(cfg)
    ensures r in GroupRequests(task, aggregate, cfg)(group) <==>
      || (r.name in HostsOf(task, group) && ForHost(task, aggregate, cfg, r))
      || (r.name == group && ForDatacenter(task, aggregate, cfg, r))
  {
    var hosts := HostsOf(task, group);
    HostAsked(task, aggregate, cfg, hosts, r);
    GatheredData(task, hosts, aggregate, |hosts|);
    assert hosts[..|hosts|] == hosts;
    Requested(Issued(cfg, Datacenter), task, aggregate, cfg, Datacenter, group, GroupData(task, aggregate)(group), r);
  }

  /** The host belongs to some group. */
  ghost predicate Grouped<D>(task: Task<D>, host: Name) {
    exists group :: group in task.hosts && host in task.hosts[group]
  }

  lemma NameAsked<D>(task: Task<D>, aggregate: Name, cfg: PluginConfig, groups: seq<Name>, r: Request<D>)
    requires Usable(cfg) && Walk(groups, task.hosts.Keys)
    ensures r in NameRequests(task, aggregate, cfg, groups) <==>
      || (Grouped(task, r.name) && ForHost(task, aggregate, cfg, r))
      || (r.name in task.hosts && ForDatacenter(task, aggregate, cfg, r))
      || r in RequestIf(true, task, aggregate, cfg, Metahost, task.metahost,
                        GatherAll(GroupData(task, aggregate), groups))
  {
    GatherSome(GroupRequests(task, aggregate, cfg), groups, r);
    forall group ensures group in groups <==> group in task.hosts { WalkMembers(groups, task.hosts.Keys, group); }
    forall group
      ensures r in GroupRequests(task, aggregate, cfg)(group) <==>
        || (r.name in HostsOf(task, group) && ForHost(task, aggregate, cfg, r))
        || (r.name == group && ForDatacenter(task, aggregate, cfg, r))
    {
      GroupAsked(task, aggregate, cfg, group, r);
    }
  }

  lemma WalkMembers<T>(xs: seq<T>, s: set<T>, x: T)
    requires Walk(xs, s)
    ensures x in xs <==> x in s
  {
    FirstsMembers(xs, |xs|);
    assert xs[..|xs|] == xs;
  }

  lemma MetahostAsked<D>(task: Task<D>, aggregate: Name, cfg: PluginConfig, groups: seq<Name>, r: Request<D>)
    requires Usable(cfg) && Walk(groups, task.hosts.Keys)
    requires r in RequestIf(true, task, aggregate, cfg, Metahost, task.metahost,
                            GatherAll(GroupData(task, aggregate), groups))
    ensures ForMetahost(task, aggregate, cfg, r)
  {
    Requested(true, task, aggregate, cfg, Metahost, task.metahost, GatherAll(GroupData(task, aggregate), groups), r);
  }

  /** The requests that one aggregate's config asks for, by what they say. */
  ghost predicate Asked<D>(task: Task<D>, aggregate: Name, cfg: PluginConfig, r: Request<D>) {
    match r.level
    case Host => Grouped(task, r.name) && ForHost(task, aggregate, cfg, r)
    case Datacenter => r.name in task.hosts && ForDatacenter(task, aggregate, cfg, r)
    case Metahost => ForMetahost(task, aggregate, cfg, r)
  }

  lemma RunAsked<D>(task: Task<D>, aggregate: Name, cfg: PluginConfig, groups: seq<Name>, r: Request<D>)
    requires Walk(groups, task.hosts.Keys)
    ensures r in NameRequests(task, aggregate, cfg, groups) ==> Asked(task, aggregate, cfg, r)
    ensures !r.level.Metahost? && Asked(task, aggregate, cfg, r) ==> r in NameRequests(task, aggregate, cfg, groups)
  {
    if Usable(cfg) {
      NameAsked(task, aggregate, cfg, groups, r);
      if r in RequestIf(true, task, aggregate, cfg, Metahost, task.metahost,
                        GatherAll(GroupData(task, aggregate), groups)) {
        MetahostAsked(task, aggregate, cfg, groups, r);
      }
    }
  }

  /**
   Every request was asked for by the config of its aggregate: its level, name, metahost, config, class
   and payload are these.  And every host request and datacenter request that was asked for is issued.
   */
  lemma RequestsAreAsked<D>(task: Task<D>, configs: map<Name, PluginConfig>, requests: seq<Request<D>>, r: Request<D>)
    requires Built(task, configs, requests)
    ensures r in requests ==> r.aggregate in configs && Asked(task, r.aggregate, configs[r.aggregate], r)
    ensures !r.level.Metahost? ==>
      (r in requests <==> r.aggregate in configs && Asked(task, r.aggregate, configs[r.aggregate], r))
  {
    var runs: seq<Run>, names: seq<Name> :|
      Ordering(task, configs, runs, names) && requests == GatherAll(RunRequests(task, configs), runs);
    GatherMembers(RunRequests(task, configs), runs, |runs|, r);
    forall i | 0 <= i < |runs| ensures runs[i].name in configs {
      WalkMembers(names, configs.Keys, names[i]);
    }
    if r in requests {
      var i :| 0 <= i < |runs| && r in RunRequests(task, configs)(runs[i]);
      RunAsked(task, runs[i].name, configs[runs[i].name], runs[i].groups, r);
    } else if r.aggregate in configs {
      WalkMembers(names, configs.Keys, r.aggregate);
      var i :| 0 <= i < |names| && names[i] == r.aggregate;
      RunAsked(task, r.aggregate, configs[r.aggregate], runs[i].groups, r);
    }
  }
}
