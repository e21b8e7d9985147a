# A verified model of Combaine

Combaine collects metrics from many hosts, aggregates them and hands the results to senders.  This
project models its four stateful or algorithmic cores and proves what they are for.

**The config scheduler and the replicated store it drives** (`Sums`, `Allocation`, `Fsm`, `Balance`,
`Maximum`, `Payers`, `Scheduler`, `Stabilisation`, `Deployment`).  The leader's `distributeTasks` pass
releases what dead hosts hold and what is not listed, and balances the rest by assign and remove
commands; every replica executes the commands on a nested map of stop channels and starts or stops task
handlers.  The model proves that
the allocator stabilises itself: from any store whatsoever two completed passes leave every listed
config on exactly one live host and nothing else, and further passes reach a level distribution
within a bound that only depends on the number of configs and then move nothing.  It proves bounds
for every host over a pass, which host pays in which turn, that no assignment of any pass, completed or
cut short, ever gives a config a second holder, and that replicas following the log run at most one live
handler per config between them.  A pass that could list its configs fails exactly when one of its raft
commands does.  Snapshots are transparent.  `Deployment` puts the pieces together: the code of a pass
runs, the replicas' code applies what it logged, and after two rounds that complete every listed
config is run by exactly one handler in the cluster.

**The TTL cache** (`Cache`, `Sharing`).  `get`, the background refresh, `Delete` and the cleaner are threads
whose steps interleave freely.  In every interleaving an unfinished entry has exactly one thread that
will close it and no channel is closed twice, an owner needs at most three turns, no waiter is stuck,
and every `get` returns what a fetch for its own key returned.  Callers share: one that finds an entry
never fetches and returns what that entry carries, and between two fetches by callers for one key its
entry was removed.

**The aggregation algebra** (`Text`, `Multimetrics`, `Quantiles`, `Aggregator`, `Rendering`,
`Aggregating`, `Collecting`).  The loops of the Multimetrics plugin are proved against functions that read a result
off all lines at once; these functions do not depend on order, and splitting the lines of a payload
over hosts and merging the hosts gives what one host would give.  Histograms, timings and sums that were
written down as lines are read back as they were.  Quantiles scanned off a compact
histogram are elements at a rank of the fully expanded sorted list.  The worker's requests conserve
their payload from hosts over datacenters to the metahost, and exactly one result arrives per
successful request.

**Two senders** (`Solomon`, `AntiFlap`).  The Solomon flattener makes exactly one sensor per leaf of
a nested result, and its labels tell paths apart exactly when the schema allows it.  The anti-flap
window keeps the newest raw levels of each check, whatever history lengths its pushes asked for, and
CRIT is reported exactly when the window agrees.

## How it is modelled

- Objects that change in place are classes: `Fsm.FSMStore`, `Fsm.Replica`, `Scheduler.Cluster`,
  `Deployment.System`, `AntiFlap.EventsStore`.  Loops are methods with invariants, tied to functions
  whose own properties are proved as lemmas.  Goroutines that interleave are step systems (`Cache`,
  `Collecting`).
- Map iteration order and sort ties are left open.  Which raft commands succeed is a parameter:
  `Scheduler.Cluster.answers` says of each command in turn whether it will, `asked` counts the commands
  issued and the ghost field `failures` those that failed.  A raft command is one atomic step; one that
  succeeded is visible in the leader's store.
- Host names are distinct (raft server ids), and so are listed configs (file names).
- `Scheduler.Cluster.store` is which host holds what in the leader's own replica, without the
  channels.  `Fsm.Replica.Apply` promises exactly the same effect (`Allocation.Step`) on its replica.
- Numbers are exact.  What Python's `float()` accepts is the parameter `number` of
  `Multimetrics.Settings`, what Go's `ParseFloat` gives is part of a `Solomon.Value`.  That `float()`
  is not negative on a text without a minus sign is the assumption `SensibleNumbers`; infinities and
  NaN count as not accepted.
- `payload.splitlines()` and its ASCII decoding happened before: a host's payload is a list of lines.
- Three claims that look natural are false in general, and are proved with their exact conditions.
  - One pass assigns everything, whatever the store held, exactly when the configs divide evenly or are
    fewer than the hosts (`Balance.OnePassIsEnough`).
  - A pass lifts no count above the largest one and the ceiling of the mean exactly when nothing is free
    or there are at most two hosts (`Maximum.MaximumIsKept`).  For one store it is decided by its sorted
    counts and the number of free configs: by a comparison if no host is above the ceiling
    (`Maximum.CeilingIsExceeded`, and `Stabilisation.CeilingIsKept` for stores), and by the first of the
    most loaded hosts otherwise (`Maximum.OneHostDecides`).
  - Labels tell sensors apart exactly under some schemas: `Solomon.LabelsTell` and `Solomon.LabelsClash`
    give the condition in both directions.
- `Scheduler.Cluster.rule` and `mark` are ghost state: what a phase of a pass may log, and since when.
- A check's key in the events store is its metahost, name and check joined by colons, as in the
  source: checks whose parts join to the same text share a window, and what is proved of a window is
  proved of the key.
- A plugin run has one config.  In the model every group of a payload brings the history length of its
  check's config, so that one payload also stands for the runs of many checks against one store; a
  panic of the store's worker ends the process, and a later run goes on with what was stored.
- The comment in `runBalancer` about `toAdd == 0` suggests that idle configs are spread one by one
  only then; the code also takes one config when `toAdd` is negative, and the model follows the code.
- `worker` in the events store fills in `result.err` but sends a fresh result without it; the model
  follows the code, so a window that could not be written is still replied.

`dafny verify dfyconfig.toml` checks the whole project.

## Model

| member | source | states |
|---|---|---|
| `Balance.PlanFits` | combainer/scheduler.go:84-92 | average and permissible number are the floor and the ceiling of configs per host, stated without division |
| `Balance.FallbackIsZero` | combainer/scheduler.go:129-134 | a host served at exactly the average while configs are free implies that fewer configs are free than there are hosts |
| `Balance.ShareIsAlwaysZero` | combainer/scheduler.go:110-134 | over a whole pass, the fallback share of the free configs is 0 each time it is consulted |
| `Balance.TurnInPlainTerms` | combainer/scheduler.go:129-149 | what a host wants in its turn, and that the host that pays is another one and keeps the average |
| `Balance.TurnIsProper` | combainer/scheduler.go:129-183 | a turn releases only above the average, hands out at least what it released, and at least one config if any is free |
| `Balance.MoveKeeps` | combainer/scheduler.go:129-183 | any turn of that kind keeps every host's bounds, whatever the amounts |
| `Balance.AlwaysKept` | combainer/scheduler.go:123-186 | after any number of turns each host is within its bounds although the believed count is not raised on assignment |
| `Balance.PassBounds` | combainer/scheduler.go:123-186 | per host: at least min(old, average), at most the average if it was below, at most one more otherwise; configs are conserved |
| `Balance.ReleaseIsSound` | combainer/scheduler.go:135-162 | a positive release never comes from the host served, which really holds that many, and leaves the payer at the average or above |
| `Balance.OnePassProgress` | combainer/scheduler.go:84-92 | a pass never increases the free configs, leaves at most the remainder, and if any remain every host holds the average |
| `Balance.OnePassLeaves` | combainer/scheduler.go:123-186 | if anything stays free, each host that started at the average or above has used up one of the configs that do not divide evenly; as many such hosts as there are of those mean that one pass assigns everything |
| `Balance.FreeRunsOut` | combainer/scheduler.go:128-184 | if all hosts start at the average, each turn uses up a surplus or a free config |
| `Balance.SecondPassFinishes` | combainer/scheduler.go:128-184 | a pass that starts with all hosts at the average assigns everything |
| `Balance.OnePassIsEnough` | combainer/scheduler.go:84-92 | one pass assigns everything, whatever the store held, exactly when the configs divide evenly over the hosts or are fewer than the hosts |
| `Balance.TurnFlattens` | combainer/scheduler.go:128-184 | with nothing free, each command of a turn lowers the sum of squared counts |
| `Balance.LevelStays` | combainer/scheduler.go:135-149 | a level cluster is left alone: no command at all |
| `Balance.UnlevelEnds` | combainer/scheduler.go:110-127 | an unlevel cluster has a least loaded host at or below and a most loaded one above the average, one of them by more than rounding |
| `Balance.UnlevelMoves` | combainer/scheduler.go:123-162 | in an unlevel cluster the very first turn releases a config |
| `Balance.PassConverges` | combainer/scheduler.go:123-186 | with every config assigned a pass issues no command exactly when the cluster is level, and otherwise lowers the sum of squares |
| `Balance.OnePassMayLeaveSome` | combainer/scheduler.go:128-184 | in every other case the empty store keeps exactly the remainder unassigned after one pass |
| `Maximum.AssignedPassKeepsMaximum` | combainer/scheduler.go:128-184 | with every config assigned, no turn of a pass lifts any host above the most loaded one of the start |
| `Maximum.TwoHostsKeepMaximum` | combainer/scheduler.go:128-184 | on two hosts a pass lifts no host above the larger of the largest count and the permissible number, whatever is free |
| `Maximum.PassMayRaiseTheMaximum` | combainer/scheduler.go:128-184 | for three hosts or more and any positive number of free configs, a store on which a pass lifts a host above both |
| `Maximum.MaximumIsKept` | combainer/scheduler.go:128-184 | over all stores of n hosts with so many configs free, no final count exceeds the largest count and the permissible number, exactly when nothing is free or there are at most two hosts |
| `Maximum.FewLeftKeepMaximum` | combainer/scheduler.go:84-184 | no host is lifted above the largest count if the configs that do not divide evenly are at most its excess over the average and one for each host in between |
| `Maximum.CeilingIsExceeded` | combainer/scheduler.go:84-184 | if no host starts above the ceiling of the mean, a pass lifts one above it exactly when more hosts hold the ceiling than hold less than the floor and the remainder exceeds the hosts left once those are taken off twice |
| `Maximum.OneHostDecides` | combainer/scheduler.go:135-184 | if some host starts above the ceiling, the maximum is lifted exactly when a config is free in the turn of the first of the most loaded hosts and that host never pays |
| `Payers.IndexCounts` | combainer/scheduler.go:126-142 | the index of the next payer after k turns, from the loads alone: it starts at the most loaded host and goes down by one for each turn that began with a payer believed at or below the permissible number |
| `Payers.PassIsWrittenOut` | combainer/scheduler.go:123-184 | every turn of a pass in the loads' own terms: which host pays, what it releases, what the served host gets, what stays free |
| `Payers.NothingMeansDry` | combainer/scheduler.go:129-162 | a host below the average gets nothing in its turn only if nothing is free and the payer of that turn holds no more than the average |
| `Payers.OnePassedOver` | combainer/scheduler.go:123-184 | in a whole pass at most one host below the average gets nothing although some host is overloaded |
| `Payers.OneLeftBehind` | combainer/scheduler.go:123-184 | if some host ends more than one above the permissible number, at most one host that was below the average ends with what it had |
| `Allocation.MinusOneMore` | combainer/fsm.go:148-160 | releasing one more config of a host is one remove command |
| `Allocation.PlusOneMore` | combainer/fsm.go:131-146 | assigning one more config to a host is one assign command |
| `Allocation.SafeLogNeverShares` | combainer/fsm.go:42-50 | along a log that assigns only unheld configs, two hosts share a config only if they shared it at every earlier point |
| `Allocation.SafeLogIsSingle` | combainer/fsm.go:42-50 | from an empty store no prefix of such a log lets two hosts hold one config |
| `Allocation.DumpRestores` | combainer/fsm.go:54-90 | restoring a dump gives back the same pairs; hosts without configs disappear |
| `Allocation.SnapshotIsTransparent` | combainer/fsm.go:54-90 | dumping at any cut, restoring and replaying the rest gives the pairs of the full log |
| `Fsm.FSMStore.List` | combainer/fsm.go:121-129 | the configs of a host, each once, in any order |
| `Fsm.FSMStore.Put` | combainer/fsm.go:131-146 | stores a fresh channel, closes exactly the one it replaces |
| `Fsm.FSMStore.Remove` | combainer/fsm.go:148-160 | forgets the pair and closes exactly its channel |
| `Fsm.FSMStore.Dump` | combainer/fsm.go:162-171 | the configs of every host, each once |
| `Fsm.FSMStore.Clean` | combainer/fsm.go:173-184 | the store is empty and every channel it ever made is closed, none of them twice |
| `Fsm.FSMStore.OpenWhileStored` | combainer/fsm.go:132-184 | a channel is open exactly while it is stored, and then in one place |
| `Fsm.Keys` | combainer/fsm.go:215-223 | the keys of a map, each once |
| `Fsm.Replica.Apply` | combainer/fsm.go:28-52 | an entry has its effect on the pairs; an assignment to this node starts one handler and stops the one before it, a removal stops one, no other handler is touched; unknown and undecodable entries change nothing |
| `Fsm.Replica.Restore` | combainer/fsm.go:65-90 | everything that ran is stopped and the pairs of the snapshot replace the old ones, with handlers for our own; an undecodable snapshot changes nothing |
| `Fsm.Replica.Snapshot` | combainer/fsm.go:54-63 | a dump of the pairs |
| `Fsm.Replica.Follow` | combainer/fsm.go:28-52 | applying a log entry by entry is replaying it |
| `Fsm.Replica.Recover` | combainer/fsm.go:54-90 | a node started from a snapshot and the rest of the log has the pairs and runs the tasks of one that followed the whole log |
| `Fsm.Replica.HandlersMatchStore` | combainer/fsm.go:42-50 | after any applies and restores, handlers with an open channel correspond one-to-one to the configs stored for this node |
| `Fsm.Replica.LiveIsHeld` | combainer/scheduler.go:212-232 | the configs that handlers still dispatch are the configs stored for this node |
| `Fsm.SameTasksRun` | combainer/fsm.go:65-90 | equal pairs mean equal running tasks, however two nodes got there |
| `Fsm.AtMostOneHandlerPerConfig` | combainer/fsm.go:42-50 | replicas that applied one prefix of a safe log run at most one live handler per config between them |
| `Scheduler.MarkDeadNodes` | combainer/scheduler.go:34-52 | the nodes of the store that are not alive |
| `Scheduler.SortByLoad` | combainer/scheduler.go:110-111 | every host once, in ascending order of load |
| `Scheduler.Weigh` | combainer/scheduler.go:129-148 | the want and the overloaded host of `Balance.Advance`, whose choice of payers over a pass is `Payers.IndexCounts` |
| `Scheduler.FirstFew` | combainer/scheduler.go:170-177 | how many free configs are taken: one if any are free, even for a want of zero or less |
| `Scheduler.CountsAddUp` | combainer/scheduler.go:94-108 | in an orderly store the listed configs are partitioned into held ones and free ones |
| `Scheduler.CleanUpHeld` | combainer/scheduler.go:75-108 | after the clean-up a listed config is with its first live holder and nothing else is held |
| `Scheduler.CleanUpIsOrderly` | combainer/scheduler.go:75-108 | whatever the store held, the clean-up leaves only live hosts, listed configs and single holders, and computes the free set |
| `Scheduler.OrderlyNeedsNoCleanUp` | combainer/scheduler.go:75-108 | an orderly store is left as it is |
| `Scheduler.BalancerStarts` | combainer/scheduler.go:94-113 | counting claims counts what hosts hold, so sorting by it sorts the real loads |
| `Scheduler.EnoughToRelease` | combainer/scheduler.go:149-162 | the overloaded host holds at least as many configs as its release asks for |
| `Scheduler.TurnInSteps` | combainer/scheduler.go:129-183 | a turn as the code computes it, a release and then an assignment, is the turn of the arithmetic model |
| `Scheduler.PrefixSafety` | combainer/scheduler.go:75-183 | after every single command of a pass, completed or cut short, hosts share no config they did not share before it; from the balancer's first command on, held and free configs partition the listed ones |
| `Scheduler.Cluster.CountsRefusals` | combainer/scheduler.go:188-202 | so many commands failed since the start as raft refused of those it was asked for |
| `Scheduler.Cluster.RaftApply` | combainer/scheduler.go:188-202 | a command is logged and visible at once, or fails, which is counted, and changes nothing; the log never assigns a held config |
| `Scheduler.Cluster.RemoveRaftPeer` | combainer/leader.go:153-160 | a removed peer gives up everything, one config a command, up to the first command that fails; no other host is touched, and an error is returned exactly if a command failed |
| `Scheduler.Cluster.ReleaseDead` | combainer/scheduler.go:75-82 | hosts that are not alive give up everything |
| `Scheduler.Cluster.ClaimHost` | combainer/scheduler.go:95-108 | a host keeps and counts what is still unassigned of what it holds, and releases the rest |
| `Scheduler.Cluster.ClaimAll` | combainer/scheduler.go:94-108 | all hosts claim in turn; the remaining free set and the counts are what the store says |
| `Scheduler.Cluster.ReleaseStale` | combainer/scheduler.go:71-108 | both clean-up phases: the store is cleaned up, and an orderly one costs no command |
| `Scheduler.Cluster.ReleaseSome` | combainer/scheduler.go:150-162 | takes configs off the overloaded host one command each, exactly as many as wanted or it holds unless a command fails |
| `Scheduler.Cluster.ReleaseTracked` | combainer/scheduler.go:150-162 | exactly the wanted number is released, and the figures stay in step with the store |
| `Scheduler.Cluster.Choose` | combainer/scheduler.go:170-177 | distinct free configs, as many as the loop takes |
| `Scheduler.Cluster.AssignAll` | combainer/scheduler.go:178-183 | assigns them one command each, stopping at the first failure; the free set loses exactly those assigned |
| `Scheduler.Cluster.AssignTracked` | combainer/scheduler.go:164-183 | the figures stay in step with the store |
| `Scheduler.Cluster.ServeHost` | combainer/scheduler.go:128-184 | one turn on the real store moves its figures as the arithmetic model says; an aborted one leaves the store orderly |
| `Scheduler.Cluster.ServeNext` | combainer/scheduler.go:128-184 | after each further turn store, counts, free set and log length are what the counts alone predict |
| `Scheduler.Cluster.TakeTurns` | combainer/scheduler.go:128-184 | all hosts in turn; store, counts, free set and log length end as the counts alone predict |
| `Scheduler.Cluster.RunBalancer` | combainer/scheduler.go:123-186 | the store ends with the counts of the arithmetic model, no command means no change, and an error is returned exactly if a command failed |
| `Scheduler.Cluster.DistributeTasks` | combainer/scheduler.go:54-121 | with hosts and a config list a pass returns an error exactly if one of its commands failed, and otherwise is a completed pass; no hosts or no config list change nothing; any pass, failed or not, appends releases first and then, on an orderly store, releases and assignments of listed configs to live hosts |
| `Stabilisation.OnePass` | combainer/scheduler.go:54-186 | one completed pass from any store: orderly, free configs at most the remainder and not more than after the clean-up, none if configs divide evenly or are fewer than hosts, host bounds |
| `Stabilisation.TwoPassesSettle` | combainer/scheduler.go:54-186 | two completed passes from any store put every listed config on exactly one live host and nothing else |
| `Stabilisation.SettledPass` | combainer/scheduler.go:123-186 | on a settled store a pass issues no command exactly when every host holds the average or the permissible number, and otherwise lowers the squared loads |
| `Stabilisation.SettledPassKeepsMaximum` | combainer/scheduler.go:123-186 | a completed pass over a settled store gives no host more than some host held before |
| `Stabilisation.OneLeftBehind` | combainer/scheduler.go:54-186 | for stores: if a completed pass leaves some host more than one above the permissible number, at most one host that was below the average gained nothing |
| `Stabilisation.CeilingIsKept` | combainer/scheduler.go:54-186 | for stores: no host above the ceiling of the mean before a completed pass, and one after it, exactly if the store is crowded |
| `Stabilisation.PassMayLift` | combainer/scheduler.go:123-186 | for any three hosts or more, a store within the ceiling and a completed pass that gives a host more than any held; every completed pass from that store goes above the ceiling |
| `Stabilisation.RunConvergesAndStays` | combainer/scheduler.go:123-186 | repeated passes reach a settled, level store within 3 + configs squared passes and no later pass moves anything |
| `Stabilisation.ClusterSafety` | combainer/scheduler.go:54-202 | for any log of passes and peer removals, replicas that hold what one prefix left run at most one live handler per config |
| `Deployment.System.constructor` | combainer/fsm.go:110-119 | a leader with an empty log, and one empty replica per name, in step with it |
| `Deployment.System.CatchUp` | combainer/fsm.go:28-52 | replicas that apply the entries up to any point of the leader's log hold what it left there, and run no config twice |
| `Deployment.System.RunPass` | combainer/scheduler.go:54-202 | a pass of the leader, completed or cut short, followed by all replicas: they hold what its store holds and run no config twice; it is cut short exactly if a command failed |
| `Deployment.System.SettledRuns` | combainer/scheduler.go:212-232 | with a settled store and a replica for each live host, each listed config is run by exactly one handler in the cluster, and no other config is run |
| `Deployment.System.Stabilise` | combainer/scheduler.go:54-202 | repeated passes by the code, followed by the replicas' code: after two that complete each listed config runs exactly once and nothing else runs; after 3 + configs squared of them the load is level; rounds in which no command fails do complete |
| `Cache.NextKeepsInv` | common/cache/cache.go:56-99 | every step of every thread keeps the invariant on entries, owners and results |
| `Cache.OneThreadCloses` | common/cache/cache.go:56-99 | an entry that is not ready has exactly one thread that will close it, a ready one none |
| `Cache.ClosedOnce` | common/cache/cache.go:72-95 | over a whole run a channel was closed once if its entry is ready and never otherwise |
| `Cache.OwnerMakesReady` | common/cache/cache.go:59-95 | whatever others do, an entry is ready after three turns of its owner |
| `Cache.NobodyIsStuck` | common/cache/cache.go:77-99 | whoever waits can go on, or the owner of the entry waited for can |
| `Cache.GetsAgree` | common/cache/cache.go:56-99 | every get returns what some earlier fetch for the same key returned; which one is `Sharing.LookupShares` and `Sharing.FetcherGetsItsOwn` |
| `Cache.NoReadyErrorStays` | common/cache/cache.go:66-72 | no ready entry in the store carries an error |
| `Cache.FailedRefreshChangesNothing` | common/cache/cache.go:79-84 | leaving a failed background refresh out of a run gives a possible run with the same store, entries and other threads at every later point |
| `Sharing.LookupShares` | common/cache/cache.go:56-99 | over any run: a caller whose lookup comes while an entry for its key is resident never fetches; it waits for that entry or has returned what that entry carries |
| `Sharing.FetcherGetsItsOwn` | common/cache/cache.go:59-77 | over any run: a caller that fetches attends to its own new entry until it returns what that entry carries |
| `Sharing.WhoRemoves` | common/cache/cache.go:66-169 | an entry goes exactly when it is dropped after a failed fetch, deleted, or swept as stale |
| `Sharing.WhoReplaces` | common/cache/cache.go:79-95 | an entry that stays is replaced only by the background refresh of its key, and by a value |
| `Sharing.FetchesAreFew` | common/cache/cache.go:56-77 | over any run callers fetch for a key at most once more than its entry was removed |
| `Sharing.SecondFetch` | common/cache/cache.go:56-77 | between two fetches by callers for one key its entry was removed |
| `Sharing.TwoFetchers` | common/cache/cache.go:56-77 | two callers that fetch for one key at the same time: the entry of the earlier one was removed in between |
| `Sharing.RefreshesAreCounted` | common/cache/cache.go:77-96 | every expired entry that is returned starts exactly one background refresh, and nothing else starts any |
| `Sharing.RefreshLands` | common/cache/cache.go:86-95 | a refresh that returned a value makes it the resident entry, ready for everybody |
| `Multimetrics.HostIgnoresOrder` | plugins/aggregators/multi_metrics.py:78-122 | the order of a payload's lines does not matter |
| `Multimetrics.MergedPartsOfHost` | plugins/aggregators/multi_metrics.py:86-154 | merging the results of a payload's parts gives the result of the payload |
| `Multimetrics.MergedGroups` | plugins/aggregators/multi_metrics.py:134-154 | merging groups gives what merging all their members at once gives |
| `Multimetrics.TwoStagesEqualOne` | plugins/aggregators/multi_metrics.py:78-154 | lines dealt out to hosts in any way and merged give what one host gives, malformed lines included |
| `Quantiles.ScanStops` | plugins/aggregators/multi_metrics.py:172-178 | while the index is within the total of the counts, the inner loop breaks at some key |
| `Quantiles.NothingInherited` | plugins/aggregators/multi_metrics.py:166-182 | on counts that are not negative each answer is the quantile of the histogram itself, never the one found before it |
| `Quantiles.QuantileIsRank` | plugins/aggregators/multi_metrics.py:161-183 | for whole counts a quantile below 100 is the element of the expanded list at the rank max(1, int(total * q / 100)), written out |
| `Quantiles.QuantileIsFirst` | plugins/aggregators/multi_metrics.py:170-178 | for any counts that are not negative: the first key, in ascending order, at which the counts so far make up total * q / 100 rounded down |
| `Quantiles.TopQuantile` | plugins/aggregators/multi_metrics.py:179-180 | a quantile of 100 or more is the largest key |
| `Quantiles.AnswersAreRanks` | plugins/aggregators/multi_metrics.py:161-183 | every answer is the factor times the element of the expanded list at its rank, the largest one from 100 on |
| `Quantiles.ExpandedListIsFaithful` | plugins/aggregators/multi_metrics.py:8-11 | the expanded list is sorted and holds every key as often as it was counted |
| `Quantiles.QuantilesAscend` | plugins/aggregators/multi_metrics.py:59-66 | with a non-negative factor the answers ascend with the sorted quantiles |
| `Quantiles.SortedKeys` | plugins/aggregators/multi_metrics.py:166-167 | the keys in ascending order |
| `Quantiles.FirstReaching` | plugins/aggregators/multi_metrics.py:173-178 | the running-sum loop finds the first key that reaches the index |
| `Quantiles.CalculateQuantiles` | plugins/aggregators/multi_metrics.py:161-183 | the loop's answers for any counts and any total, the value carried over where no key is reached; for whole counts and their total, the elements of the expanded list at the ranks that the quantiles ask for |
| `Aggregator.AddTimings` | plugins/aggregators/multi_metrics.py:7-36 | one timing is added, skipped or refused as `Multimetrics.ParseToken` says; what that makes of a text is `Rendering.TokenReads`, `TokenSkipped`, `TokenRefused` and `TokenPlain` |
| `Aggregator.AddAllTimings` | plugins/aggregators/multi_metrics.py:106-107 | a line's timings are added up to the first malformed one |
| `Aggregator.AddLine` | plugins/aggregators/multi_metrics.py:86-121 | one raw line changes the result by exactly what it says; a malformed one adds nothing but the timings before the fault |
| `Aggregator.HostOneMore` | plugins/aggregators/multi_metrics.py:86-121 | what all lines give at once is what the last line makes of the rest |
| `Aggregator.AggregateHost` | plugins/aggregators/multi_metrics.py:78-122 | the loop computes the host result read off all lines at once, rates by the time that passed or by one second if the clock did not advance |
| `Aggregator.HostIsCountable` | plugins/aggregators/multi_metrics.py:99-107 | no minus sign survives in a timings line, so a host's counts are not negative |
| `Aggregator.HostIsProper` | plugins/aggregators/multi_metrics.py:86-98 | what a host returns has named metrics of the kinds their names say, so a group of hosts is never refused |
| `Aggregator.WeightOneMore` | plugins/aggregators/multi_metrics.py:139-144 | adding to one key adds as much to the sum of all counts |
| `Aggregator.AddHist` | plugins/aggregators/multi_metrics.py:139-144 | one item's histogram is added pointwise and the running count stays the sum of all counts |
| `Aggregator.MergeTimings` | plugins/aggregators/multi_metrics.py:136-144 | the pointwise sum of all items' histograms, and its total; fails exactly if an item has a number under this name |
| `Aggregator.SumScalars` | plugins/aggregators/multi_metrics.py:153-154 | the sum over all items, absent ones counting nothing; fails exactly if an item has a histogram under this name |
| `Aggregator.AggregateGroup` | plugins/aggregators/multi_metrics.py:124-159 | reports exactly if the payload is not empty and every item's metrics have names and the kinds these say; everything reported stems from a merged metric and every one of them is reported under its final name |
| `Aggregator.ReportIsUnique` | plugins/aggregators/multi_metrics.py:146-154 | where metrics under one final name agree, two reports are the same |
| `Aggregator.ReportIsDetermined` | plugins/aggregators/multi_metrics.py:146-154 | the report does not depend on the order of the metrics exactly if metrics that end up under one name, once the at sign is stripped, agree |
| `Aggregator.NoTwinsAgree` | plugins/aggregators/multi_metrics.py:146-154 | a payload in which no name also comes with an at sign in front has one report only |
| `Aggregator.GroupQuantiles` | plugins/aggregators/multi_metrics.py:134-151 | the quantiles a group of hosts reports are those of its merged histogram |
| `Aggregator.ReportIgnoresSplit` | plugins/aggregators/multi_metrics.py:78-159 | the group's report does not depend on how lines were dealt out to hosts |
| `Aggregator.PackedTimingsReported` | plugins/aggregators/multi_metrics.py:134-151 | timings `@base` of any item are reported as `base`: the quantiles, at their ranks, of the histogram that adds up all items'; nothing is left under the name with the at sign |
| `Aggregator.OthersReported` | plugins/aggregators/multi_metrics.py:134-154 | every other name is reported as it is: timings by their quantiles, anything else as its sum over all items |
| `Aggregator.NothingElseReported` | plugins/aggregators/multi_metrics.py:128-154 | nothing is reported that no item holds under that name or with an at sign in front |
| `Rendering.PackedRoundTrip` | plugins/aggregators/multi_metrics.py:7-36 | a histogram written as `key@count` for each key, in any order, under a name with an at sign, is the host's result for that line |
| `Rendering.PlainRoundTrip` | plugins/aggregators/multi_metrics.py:27-36 | plain timings are counted, each value as often as it was written |
| `Rendering.SumRoundTrip` | plugins/aggregators/multi_metrics.py:108-119 | numbers are added up, and divided by the time that passed if rates are wanted |
| `Rendering.TokenReads` | plugins/aggregators/multi_metrics.py:18-36 | of a packed timing the key stands before the at sign and the count behind it; either one malformed refuses it |
| `Rendering.TokenSkipped` | plugins/aggregators/multi_metrics.py:19-25 | under a name with an at sign, timings without a count and counts without a timing are skipped |
| `Rendering.TokenRefused` | plugins/aggregators/multi_metrics.py:19-20 | a second at sign makes a timing malformed |
| `Rendering.LineEnds` | plugins/aggregators/multi_metrics.py:106-121 | a malformed timing ends its line and what stands before it counts; skipped ones make no difference |
| `Rendering.TimingsBody` | plugins/aggregators/multi_metrics.py:98-107 | in a line of timings commas, minus signs and colons set tokens apart like blanks |
| `Rendering.IgnoredLines` | plugins/aggregators/multi_metrics.py:86-95 | a name with a forbidden character makes its line count for nothing, and so does an empty line |
| `Rendering.MalformedSum` | plugins/aggregators/multi_metrics.py:108-121 | one malformed number voids its line of numbers |
| `Rendering.NameAlone` | plugins/aggregators/multi_metrics.py:98-119 | a name with nothing behind it stands for a sum of 0, or for nothing if it names timings |
| `Rendering.TabsAreBlanks` | plugins/aggregators/multi_metrics.py:87-92 | a tab is as good as a blank anywhere on a line |
| `Rendering.BlanksAround` | plugins/aggregators/multi_metrics.py:87-92 | blanks around a line do not matter, and a line of blanks says nothing |
| `Aggregating.CollectHosts` | worker/aggregating.go:57-101 | what was fetched is appended to both payloads, and each host has its own request if wanted |
| `Aggregating.BuildGroup` | worker/aggregating.go:55-139 | one datacenter request per group with data unless it is switched off |
| `Aggregating.BuildName` | worker/aggregating.go:35-171 | all requests of one aggregate, the groups taken in some order; a config that cannot be used gives none |
| `Aggregating.BuildRequests` | worker/aggregating.go:35-171 | the requests of every aggregate, aggregates and groups each taken once in some order |
| `Aggregating.PayloadIsConserved` | worker/aggregating.go:35-171 | per aggregate the one metahost payload is the concatenation of the datacenter payloads, and of the host payloads |
| `Aggregating.MetahostAddsUpDatacenters` | worker/aggregating.go:65-160 | merged metahost metrics are the merge of the datacenters' merged metrics |
| `Aggregating.RequestsAreAsked` | worker/aggregating.go:35-171 | every request carries the metahost, and the packed config and class of its aggregate; a host request the one piece of data of that host, a datacenter request those of its hosts in order, the metahost request all of them; and every host and datacenter request that the config asks for is issued |
| `Collecting.NextKeepsInv` | worker/aggregating.go:91-181 | the wait group counts the goroutines not done, and received results come from distinct successful ones |
| `Collecting.NothingSentAfterClose` | worker/aggregating.go:173-176 | once the channel is closed every goroutine is gone, and the counter is never negative |
| `Collecting.RunsAreShort` | worker/aggregating.go:91-181 | every interleaving ends within four steps per request and three more |
| `Collecting.NobodyIsStuck` | worker/aggregating.go:91-181 | until the worker is finished some goroutine can go on |
| `Collecting.OneResultPerSuccess` | worker/aggregating.go:178-181 | a finished run received exactly one result from each request that succeeded and none from the others |
| `Collecting.OutcomeStays` | worker/aggregating.go:92-100 | a goroutine counts as succeeded exactly if its call returned without error |
| `Solomon.SplitOfJoin` | senders/solomon/solomon.go:112-124 | joining dot-free components and splitting again gives them back |
| `Solomon.JoinOfSplit` | senders/solomon/solomon.go:112-124 | splitting a dotted name and joining again gives it back |
| `Solomon.DumpSensor` | senders/solomon/solomon.go:79-133 | the sensor of one value under its path, or none for no number or a path too short for the schema |
| `Solomon.DumpSlice` | senders/solomon/solomon.go:135-155 | a list that fits the fields gives one sensor per item, any other fails |
| `Solomon.DumpMap` | senders/solomon/solomon.go:157-186 | appends the sensors of all leaves below, or fails if one of them makes none |
| `Solomon.Flatten` | senders/solomon/solomon.go:226-233 | the sensors of all leaves of a result |
| `Solomon.OneSensorPerLeaf` | senders/solomon/solomon.go:157-186 | exactly one sensor per leaf, labelled by its path; failure exactly if some leaf makes none |
| `Solomon.SensorSays` | senders/solomon/solomon.go:79-133 | a value makes a sensor exactly if it is a number and its path is longer than the schema; it carries that number, the time, and exactly these labels: the components that the schema names, the others joined by dots, and the prefix without its last dots, or without a schema prefix and path together |
| `Solomon.LeavesAreReached` | senders/solomon/solomon.go:157-186 | every flattened leaf is the value its path leads to |
| `Solomon.ReachedAreLeaves` | senders/solomon/solomon.go:157-186 | every value that a path leads to is flattened |
| `Solomon.LeafPathsDiffer` | senders/solomon/solomon.go:157-186 | no two leaves share a path |
| `Solomon.FlatNameLabels` | senders/solomon/solomon.go:109-130 | a flat dotted key gets the labels of the nested path of its components |
| `Solomon.LabelsTell` | senders/solomon/solomon.go:109-130 | under such a schema, paths of dot-free components with equal labels are equal |
| `Solomon.LabelsClash` | senders/solomon/solomon.go:109-130 | under any other schema two different paths share their labels |
| `Solomon.SensorsAreToldApart` | senders/solomon/solomon.go:79-186 | no two sensors of one result carry the same labels |
| `AntiFlap.ShiftIn` | senders/juggler/plugins_store.go:124-128 | the in-place shift puts the new level in front, moves the others back by one and cuts the window to its length |
| `AntiFlap.EventsStore.Work` | senders/juggler/plugins_store.go:105-143 | the stored window and the reply for any window and any history length, with failing lookups and writes; where indexing or cutting panics nothing is stored |
| `AntiFlap.EventsStore.Push` | senders/juggler/plugins_store.go:145-167 | a lost request changes nothing, a lost reply gives no window, a panic of the worker is a crash |
| `AntiFlap.CheckHistory` | plugins/juggler/simple.lua:132-142 | the first level of the window that differs, or the level itself |
| `AntiFlap.SelectLevel` | plugins/juggler/simple.lua:165-190 | the most severe level that fires is pushed, OK if none does, and only CRIT is checked against the window; nothing is reported exactly if the push crashes the process |
| `AntiFlap.Run` | plugins/juggler/simple.lua:155-194 | all groups of a payload in turn up to the first push that crashes the process; groups of another type are skipped |
| `AntiFlap.StoreKeepsNewest` | senders/juggler/plugins_store.go:105-143 | from any stored windows, however checks interleave, whatever lengths they ask for and whatever goes wrong: each key's window holds the newest levels, newest first, as many as its pushes left room for |
| `AntiFlap.OneHistory` | senders/juggler/plugins_store.go:119-129 | with one history length, from an empty store, the window is the newest recorded levels up to that length |
| `AntiFlap.CritNeedsWholeWindow` | plugins/juggler/simple.lua:132-176 | a raw CRIT that got its window back is reported as CRIT exactly when the whole window is CRIT, otherwise as the newest other level in it; without the window it is reported as CRIT, after a crash not at all |
| `AntiFlap.LevelTaken` | plugins/juggler/simple.lua:155-194 | a group of another type is skipped; of any other one the most severe level that fires is put in front of its window, where the push lands and leaves room, and is reported as it is unless it is CRIT or the process died |
| `AntiFlap.KeysTell` | plugins/juggler/simple.lua:144-153 | checks whose metahosts and names hold no colon share a window only if they are the same |
| `AntiFlap.KeysMeet` | plugins/juggler/simple.lua:144-153 | a colon inside a name can make two checks share one |

## Left out

- Raft, serf and gRPC internals, bootstrap, and commands that commit after their apply timed out.
- `FSMStore.Replace`, which is used by tests only and starts no handlers.
- Channels in the leader's own store: `Scheduler.Cluster` works on the pairs alone, and its node is one more replica of `Deployment.System`; a raft command reaches replicas after the pass, not during it.
- Panics that `FSM.Apply` would recover from: the model proves that its channel operations never panic.
- What a handler does between two looks at its stop channel: client creation, dispatching and sleeping; a live handler is one whose channel is open.
- Locks of `FSMStore`: its methods are atomic; so is each put of `Restore`.
- Real time in the cache: whether an entry has expired or is stale is left open at every look.
- The typed getters of the cache, `TuneCache` and the HTTP fetchers.
- `calculate_percentage` and the `get_prc` setting: rounding and divisions by zero.
- Floating-point rounding, infinities and NaN in sums, rates and quantiles.
- The aggregator processes, msgpack and JSON encodings, and `DoSending`.
- `sendInternal` around the flattener: services with dots, common labels and the HTTP retries.
- The name stack of the flattener is a local value that is pushed and popped; that Go slices share their backing arrays is not modelled, no callee looks beyond its own length.
- Evaluating checks in `simple.lua`: which conditions fire is part of the input.
- Juggler `ensureCheck` and sending, the graphite sender, `apdex.py`, discovery and data fetchers.
