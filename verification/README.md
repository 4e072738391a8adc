# Elektron: a verified model of the scheduler and the power cappers

Elektron is a Mesos framework that launches a queue of tasks on resource offers and can cap the power of
the machines it runs on. This project models its two stateful parts in Dafny and proves what they keep
over whole runs.

**Scheduling.** `BaseScheduler` holds a queue of tasks whose instance counters are shared pointers. Four
policies (first-fit, bin-packing, max-greedymins, max-min) walk that queue by index, decrement counters, cut
entries out of the slice in the middle of the walk, add up what was charged to the offer, and close `Shutdown`
when the queue runs empty. Before each batch of offers the scheduler records totals per agent, computes a
scheduling window, and may switch to another policy, chosen by the ratio of light to heavy tasks in the
window or by going round a circular list.

**Power capping.** Extrema keeps a stack of capped machines. Progressive Extrema keeps a list and two maps in
step while it caps machines at 50, 25 and 12.5 percent. Both feed on ring histories of power readings.

## How the model is built

Everything the source changes step by step is imperative Dafny: the scheduler, the policy states, the tracker,
the ring histories, the cappers and the running average are classes, and their loops are loops. Each method is
proved equal to a function on values. Theorems about one offer, one batch and whole runs are proved about those
functions.

| file | what it holds |
|---|---|
| `Workload.dfy`, `Sorting.dfy` | tasks, offers, aggregation, host and watts rules; an ordered permutation |
| `TaskIds.dfy` | `electron-<name>-<instance>` and when ids are unique |
| `Packing.dfy` | the four policies on one offer, on values |
| `PackingTheorems.dfy`, `PickOrder.dfy` | conservation, safety, declining, pick order |
| `Leftovers.dfy`, `Forecast.dfy`, `TightOffers.dfy`, `AmpleOffers.dfy`, `PackedOffers.dfy` | what a greedy pass leaves behind, told afterwards and told beforehand |
| `Batches.dfy` | a batch of offers |
| `Window.dfy`, `Clusters.dfy`, `Ranking.dfy`, `Distribution.dfy` | window, cluster tournament, classifier |
| `Switching.dfy` | the switch table, round robin, nearest distribution, the switching state machine |
| `Tracking.dfy` | the resource tracker |
| `System.dfy`, `Runs.dfy` | whole runs: exactly-once launching, the window, round robin, answers |
| `RoundRobinSafety.dfy` | when round robin can come to a switch without a policy to switch to |
| `Deployments.dfy` | what a switch deploys, for how long, and what is sorted, in every run |
| `Launches.dfy` | what the driver is told about launched tasks |
| `Accounting.dfy` | resource accounting over whole runs |
| `Scheduler.dfy`, `Startup.dfy` | the scheduler object, proved to start in an initial state and to make steps of `System.dfy` |
| `PowerHistory.dfy`, `RunningAverage.dfy` | ring histories, sliding averages |
| `RaplCap.dfy`, `Extrema.dfy`, `ProgressiveExtrema.dfy` | the capping command and the two controllers |
| `Counterexamples.dfy` | concrete inputs on which a plausible or documented property fails |

Where a property one would expect is false, the code is kept as it is and the exact condition is proved:

- Task ids are unique if and only if task names are (`TaskIds.IdsUniqueIffNamesDistinct`). The validators of the
  source reject empty names and white space, not repeated names.
- `docs/SchedulingPolicies.md` says max-greedymins picks "until no more task can fit". The greedy cursor moves on
  after a removal and steps over the entry that slid into the free place; bin-packing has the same loop. With switching
  off, or on and the window not used up by the offer (`PackedOffers.WindowLeft`), whether an offer will be packed is told from the queue and the offer before the pass: exactly by a walk over the original
  queue that goes two places at a time behind tasks that will be launched out (`PackedOffers.BinPackingPackedIff`,
  `PackedOffers.GreedyMinsPackedIff`); exactly by "no two neighbours match the host" when everything that matches would
  fit together (`AmpleOffers.AmplePackedIff`); and surely when no task fits beside all instances of its neighbour
  (`TightOffers.PackedIfNoneTight`, which `Counterexamples.TightYetPacked` shows not to be necessary: how much earlier
  tasks take decides which neighbour is stepped over at all).
- Max-min can decline an offer that some task would fit, when a task for another host stops its cursor
  (`PackingTheorems.MaxMinDeclinesIff`).
- Round robin can come to a switch without a policy to switch to. Without a fixed window, and for a workload of at
  least two instances whose tasks need CPU, no run does so if and only if the policy the scheduler is started with is
  listed and, if a first policy to deploy is configured, that one is listed too (`RoundRobinSafety.FreeWindowSafeIff`).
  With a fixed window, not larger than the workload, the policy the scheduler is started with does not matter: no run
  does so if and only if the window is zero, or the configured first policy is listed, or none is configured and the
  table is not empty (`RoundRobinSafety.FixedWindowSafeIff`). The failing runs are built in
  `RoundRobinSafety.UnlistedGetsStuck` and `RoundRobinSafety.UnlistedFirstGetsStuck`.
- For an arbitrary number of clusters the tournament produces a ranking if and only if no empty cluster lies
  between a larger and a later smaller one (`Ranking.RanksIffConsistent`). The scheduler itself asks for two
  clusters, and two always rank (`Ranking.TwoAlwaysRank`).
- From a state where no machine is capped twice while another is uncapped, a high round of Progressive Extrema leads
  to one where some is if and only if there are uncapped machines, none of them answers, and a capped one does
  (`ProgressiveExtrema.HighKeepsPhasedIff`).
- Unused CPU and RAM never go negative as long as no offer exceeds what its agent has unused. For watts this needs
  them to be a resource and no task to be charged by power class (`Accounting.NeverOvercommitted`): the tracker
  charges a task's watts attribute, offers are tested against its class watts, and one task whose class watts
  fit an offer that is smaller than its attribute can make them negative (`Accounting.ClassWattsOvercommit`).
- A smaller running-average window does not shrink one that is already longer
  (`RunningAverage.SlideRespectsSizeIff`, `Counterexamples.AveragesMoreThanAsked`).
- The labels that k-means hands out are left free here. If a labelling puts all tasks of the window into the second
  of the two clusters, the one-cluster error is missed and the ratio is zero, and only then
  (`Distribution.OneClusterMissedIff`). Whether the k-means library, whose code is not part of this model, ever
  labels like that is not claimed.

Where the code and its texts disagree, the model follows the code: `docs/SchedulingPolicySwitching.md` and a
comment in `schedulers/store.go` speak of a non-increasing order of distributions, the code sorts non-decreasing;
a comment in `schedulers/schedPolicy.go` argues for first-fit when only one cluster forms, the code picks
bin-packing. With a fixed window the number of tasks in the window stays zero, so no policy sorts anything
(`System.FixedWindowNeverSorts`). Extrema caps strictly above the high threshold, Progressive Extrema from it on.

## Assumptions

Floating-point numbers are reals; the not-a-number average of an empty cluster is `None`. Task names are
distinct, every task starts with at least one instance, and no two tasks share a counter. The workload is not empty:
start-up ends the process on an empty one (scheduler.go:204). For every policy but first-fit no task makes the watts lookup fail, because these policies end the process
then; first-fit goes on after logging, and so does the creation of a task, which leaves the watts out. Sorting is
"some ordered permutation": nothing relies on stability. Callbacks are atomic. The outcome of k-means, the set of
machines that answer a capping command and the order of map iterations are chosen freely by the environment.

## Model

| member | source | states |
|---|---|---|
| Workload.OfferAgg | utilities/offerUtils/offerUtils.go:31-46 | the loop totals the offered amounts under "cpus", "mem" and "watts" separately |
| Workload.AmountConcat | utilities/offerUtils/offerUtils.go:34-43 | several entries of one name add up |
| Workload.AggOfThree | utilities/offerUtils/offerUtils.go:31-46 | an offer of so much cpus, mem and watts, with resources of other names in between, gives exactly those three totals |
| Workload.FindPowerClass | utilities/offerUtils/offerUtils.go:49-57 | the loop finds the text of the last attribute named "class" |
| Workload.PowerClassIsLast | utilities/offerUtils/offerUtils.go:49-57 | of several "class" attributes the last one counts, without any the class is empty |
| Workload.HostMatches | utilities/offerUtils/offerUtils.go:80-85 | a task goes exactly to the hosts whose name continues the name it asks for |
| Workload.WattsMeans | def/task.go:109-128 | mapped class watts count as given for the host's class, zero for an unknown class, and never fail; else the watts attribute counts and zero fails |
| Sorting.Sort | def/taskUtils.go:159-163 | the result is a permutation of the input in non-decreasing order of the key |
| TaskIds.TaskIdInjective | schedulers/base.go:123-151 | two launched instances share an id only if task name and instance number agree, whatever dashes and digits names contain |
| TaskIds.TaskIdSpells | schedulers/base.go:123-151 | an id is "electron-", the name, a dash, and digits that read as the instance number |
| TaskIds.IdsUniqueIffNamesDistinct | def/taskUtils.go:175-188 | the ids of a workload are free of duplicates exactly when its task names are distinct |
| TaskIds.PendingIdsMember | def/taskUtils.go:178-187 | an id is pending exactly when it is instance 1..Instances of a queued task |
| Tracking.InitTaskResourceRequirements | def/taskUtils.go:175-188 | the table lists exactly the pending ids; each carries the needs of the last task of its name, and with distinct names those of its own task |
| Packing.Cursor | schedulers/MaxMin.go:138-145 | max-min's index is always within the queue: at most i going up, at least n-1-i going down |
| Packing.Try | schedulers/MaxMin.go:131-178 | one iteration of the max-min loop keeps the cursor invariant through removal, direction change and mismatch |
| Packing.ScanTry | schedulers/MaxMin.go:131-178 | an iteration continues the scan where it was, and either launches an instance or uses up one try: the loop ends |
| Packing.TotalLaunch | schedulers/MaxMin.go:78-89 | launching takes exactly one from the number of pending instances |
| Packing.ConsumeTakes | schedulers/bin-packing.go:80-128 | whatever the policy, consuming an offer is a sequence of launches, each within the window, on a matching host, and fitting what is left |
| PackingTheorems.LaunchConservesIds | schedulers/MaxMin.go:75-83 | exactly the launched id leaves the pending ids |
| PackingTheorems.ConsumeProgress | schedulers/MaxGreedyMins.go:106-200 | on every offer, for every policy: launched instances sum to at most the offer and match its host, launched and pending ids are conserved, the window is not overrun, the queue keeps its order |
| PackingTheorems.DeclinesIffNoCandidate | schedulers/MaxGreedyMins.go:117-199 | first-fit, bin-packing and max-greedymins with an open window launch nothing exactly when no queued task fits the offer on its host |
| PackingTheorems.OneTaskLaunchedIff | schedulers/bin-packing.go:30-48 | under every policy a single task is launched exactly when the host matches and its CPU, RAM and, as a resource, watts are at most those offered |
| PackingTheorems.MaxMinDeclinesIff | schedulers/MaxMin.go:128-189 | max-min launches nothing exactly when every task that fits lies below a task for another host that lies below a matching one that does not fit |
| PackingTheorems.MaxMinDeclinesIffNoCandidate | schedulers/MaxMin.go:128-189 | without host constraints max-min declines exactly what no queued task fits |
| PackingTheorems.ScanStalls | schedulers/MaxMin.go:153-156 | after a failed fit, a task for another host stops the cursor for the rest of the offer |
| Leftovers.GreedyOff | schedulers/bin-packing.go:80-128 | a greedy pass that does not use up the window does exactly what it would do with switching off |
| Leftovers.DrainOutcome | schedulers/bin-packing.go:93-127 | with switching off, draining a task either launches it out, cutting out that entry alone, or stops because it no longer fits, changing nothing but its count |
| Leftovers.SkippedFollow | schedulers/bin-packing.go:80-128 | with switching off, an entry that the greedy pass stepped over survives untouched and directly followed a task whose last instance went out in the pass |
| Leftovers.GreedyLeftover | schedulers/bin-packing.go:80-128 | unless the window is used up, a task still queued that would fit the rest of the offer directly followed a task launched out in the pass |
| Forecast.RoomIsLargest | schedulers/bin-packing.go:93-127 | the forecast count for a task is the largest number of its instances that fits |
| Forecast.DrainIsRoom | schedulers/bin-packing.go:93-127 | with switching off, draining a task launches exactly that many and removes it exactly when that is all of them |
| Forecast.ForecastRight | schedulers/bin-packing.go:80-128 | with switching off, a walk over the original queue, two places behind each task that will be launched out, foretells the totals and the entries stepped over |
| PackedOffers.BinPackingPackedIff | schedulers/bin-packing.go:80-128 | unless the window is used up, bin-packing leaves nothing placeable exactly when no entry that walk steps over fits what it leaves: a condition on queue and offer alone |
| PackedOffers.GreedyMinsPackedIff | schedulers/MaxGreedyMins.go:124-188 | unless the window is used up, the documented packing by max-greedymins holds exactly under that condition on the queue and the offer that one instance of the last fitting task was taken from |
| PackedOffers.GreedyMinsIdlePacked | schedulers/MaxGreedyMins.go:124-188 | when no task fits the offer at all, max-greedymins leaves nothing placeable |
| TightOffers.PackedIfNoneTight | schedulers/MaxGreedyMins.go:157-188 | unless the window is used up, a greedy pass leaves nothing placeable if no matching task fits beside all instances of a matching neighbour before it |
| PackedOffers.BinPackingPackedIfNoneTight | schedulers/bin-packing.go:80-128 | the same for a whole offer under bin-packing |
| AmpleOffers.AmplePackedIff | schedulers/MaxGreedyMins.go:157-188 | unless the window is used up, if all that matches the host fits together, a greedy pass leaves nothing placeable exactly when no two neighbours match |
| PackedOffers.BinPackingAmplePackedIff | schedulers/bin-packing.go:80-128 | the same for a whole offer under bin-packing |
| PickOrder.ScanPicks | schedulers/MaxMin.go:128-178 | from a fresh cursor the next launch is the lowest or the highest fitting entry among those not used up by failed tries |
| PickOrder.MaxMinAlternates | schedulers/MaxMin.go:123-178 | without host constraints and switching, max-min equals alternation: back, front, back, until one side has no fit |
| PickOrder.FirstPickHeaviest | schedulers/MaxMin.go:125-126 | on the sorted queue max-min's first pick is a heaviest task that fits |
| PickOrder.SecondPickLightest | schedulers/MaxMin.go:147-166 | max-min's second pick is a lightest task among those that still fit below the first |
| PickOrder.FirstFitPicksFirst | schedulers/first-fit.go:70-112 | first-fit launches exactly one instance, of the first task in queue order that fits |
| PickOrder.GreedyMinsFirstHeaviest | schedulers/MaxGreedyMins.go:126-155 | on the sorted queue max-greedymins' first pick is a heaviest task that fits |
| Batches.AnsweredOnce | schedulers/bin-packing.go:63-140 | offer k of a batch gets answer k: each offer is answered exactly once, in order |
| Batches.ConsumeAllProgress | schedulers/bin-packing.go:63-140 | over a batch ids are conserved between queue and driver, the policy's count grows by the launches, and stays within the window |
| Window.WindowIsLargest | utilities/schedUtils/schedUtils.go:54-100 | the CPU and RAM of v pending instances in queue order, summed up, are at most what is given as unused exactly when v is at most the window |
| Window.InstancesArePending | utilities/schedUtils/schedUtils.go:74-76 | the instances counted are as many as the pending ids |
| Window.Apply | utilities/schedUtils/schedUtils.go:60-119 | the nested loops compute that window and the number of tasks covering it, never more than the queue has |
| Window.CoverAt | utilities/schedUtils/schedUtils.go:89-92 | a task none of whose instances was accepted is not counted, one with some is |
| Distribution.GetTasksInWindow | def/taskUtils.go:217-236 | the shortest prefix reaching the window, the same number of tasks that Window.Apply counts, with its last task's surplus |
| Distribution.WindowFacts | def/taskUtils.go:202-236 | the prefix minus the surplus holds min(window, pending) instances and at least one of each of its tasks |
| Distribution.CountsAddUp | def/taskUtils.go:249-255 | two clusters of the window share its instances, each with at least one per task |
| Distribution.Classify | def/taskUtils.go:65-83 | the clusters partition the window's tasks by label and come back ordered by score |
| Distribution.LabelledMember | def/taskUtils.go:72-80 | a task is in the cluster of its label and in no other |
| Distribution.TwoClusters | def/taskUtils.go:135-154 | of two clusters the one of larger average comes second; without a larger one, cluster 1 does |
| Distribution.LightIsLighter | def/taskUtils.go:238-253 | light and heavy tasks are those of the two labels, there are heavy ones, and the light ones do not take more power on average |
| Distribution.RatioDefined | def/taskUtils.go:238-255 | without the one-cluster error, light and heavy counts add up to min(window, pending) and heavy is at least 1: the ratio is defined |
| Distribution.RatioMeans | def/taskUtils.go:249-255 | the ratio times the heavy instances is the light instances; it is 1 exactly for as many of both and above 1 exactly for more light ones |
| Distribution.OneClusterMissedIff | def/taskUtils.go:242-247 | the ratio is zero exactly when all tasks of the window went to cluster 1: one cluster only, yet no error |
| Distribution.GetTaskDistributionInWindow | def/taskUtils.go:201-256 | a ratio comes back exactly if there are light and heavy tasks to tell apart, and times the heavy instances inside the window it is the light ones |
| Clusters.ClusterSizeAvgMMMPU | def/taskUtils.go:95-119 | the loop computes the average of the tasks' medians, undefined for an empty cluster |
| Clusters.AverageSplits | def/taskUtils.go:95-119 | weighed with their numbers of tasks the averages of two parts make up that of the whole |
| Clusters.AverageOfOne | def/taskUtils.go:95-119 | the average of one task is its median |
| Clusters.AverageBetween | def/taskUtils.go:95-119 | the average lies between the smallest and the largest median and is m if all medians are m |
| Clusters.CompareWithLater | def/taskUtils.go:137-148 | one row of the tournament adds exactly the wins of cluster i's pairs |
| Clusters.LabelAndOrder | def/taskUtils.go:122-155 | every cluster appears once with its number of pairwise wins, in order of that number |
| Ranking.RanksIffConsistent | def/taskUtils.go:135-148 | the scores are the ranks 0..k-1, each once, exactly when no empty cluster lies between a larger and a later smaller one |
| Ranking.TwoAlwaysRank | def/taskUtils.go:241 | the two clusters the scheduler asks for are always ranked, empty or not |
| Ranking.OrderedByAverage | def/taskUtils.go:150-154 | with non-empty clusters the result is non-decreasing in average power |
| Ranking.BeatsExactlyLower | def/taskUtils.go:135-148 | if the scores are ranks, a cluster beats exactly those of lower score |
| Tracking.SumOverAny | utilities/trackResourceUsage.go:159-169 | the clusterwide sum does not depend on the order of the map iteration |
| Tracking.Tracker.RecordTotalResourceAvailability | utilities/trackResourceUsage.go:79-99 | an agent is recorded with its first offer; later offers change nothing |
| Tracking.RecordsFirst | utilities/trackResourceUsage.go:79-99 | known agents keep their figures, a new one starts with what its first offer of the batch holds, all of it unused, and no others appear |
| Tracking.Tracker.OnTaskActive | utilities/trackResourceUsage.go:121-138 | a known task's needs leave its agent's unused amounts, nothing else changes |
| Tracking.Tracker.OnTaskTerminal | utilities/trackResourceUsage.go:103-120 | a known task's needs return to its agent's unused amounts |
| Tracking.Tracker.GetClusterwideResourceAvailability | utilities/trackResourceUsage.go:154-172 | the figures are the sums over all recorded agents |
| Accounting.ActivateBalanced | utilities/trackResourceUsage.go:57-61 | recording a newly active task keeps unused equal to total minus active needs on every agent |
| Accounting.ReleaseBalanced | utilities/trackResourceUsage.go:50-54 | so does releasing an active task |
| Accounting.UnusedIsTotalMinusActive | utilities/trackResourceUsage.go:79-139 | in every state of every run unused equals total minus the needs of the tasks active on the agent |
| Accounting.ClusterBalance | utilities/trackResourceUsage.go:154-172 | what is unused in the cluster is what all agents have minus what all active tasks need |
| Accounting.WindowFillsFree | schedulers/schedPolicy.go:178-183 | in every state of every run the window is the largest number of pending instances whose CPU and RAM fit what all agents have minus what all active tasks need |
| Accounting.NeverOvercommitted | utilities/trackResourceUsage.go:154-172 | if offers never exceed their agents' unused amounts, one per agent and batch, unused CPU and RAM never go negative, and neither do unused watts when they are a resource and no task is charged by class |
| Accounting.ClassWattsOvercommit | utilities/trackResourceUsage.go:57-61 | under first-fit, one task that fits by its class watts the first offer of an agent, which has less than its watts attribute, makes that agent's unused watts negative |
| Switching.BuildTable | schedulers/store.go:86-109 | the table holds each policy with a non-zero distribution once, non-decreasing |
| Switching.InitSchedPolicyCharacteristics | schedulers/store.go:57-129 | distributions are stored and the links of listed policies follow the table around |
| Switching.WriteLinks | schedulers/store.go:111-125 | every listed policy is linked to its neighbours, the ends to each other |
| Switching.PrevOfNext | schedulers/store.go:118-123 | going forward and then back returns to the policy |
| Switching.NextOfPrev | schedulers/store.go:118-123 | going back and then forward returns to the policy |
| Switching.EachListedDeployed | schedulers/schedPolicy.go:150-156 | among n forward switches from a listed policy, each of the n listed policies is deployed |
| Switching.NoneDeployedTwice | schedulers/schedPolicy.go:150-156 | none is deployed twice within n switches |
| Switching.BackRetraces | schedulers/schedPolicy.go:160-166 | m backward switches undo the last m forward ones |
| Switching.EachListedBack | schedulers/schedPolicy.go:160-166 | among n backward switches from a listed policy, each of the n listed policies is deployed |
| Switching.NoneBackTwice | schedulers/schedPolicy.go:160-166 | none is deployed twice within n backward switches |
| Switching.SwitchTaskDistBased | schedulers/schedPolicy.go:84-146 | the search ends, stays in the table, and returns a policy of minimal distance to the ratio; bin-packing without a ratio |
| Switching.SwitchKeepsInv | schedulers/schedPolicy.go:185-234 | counts of non-deployed policies stay zero and the deployed one's within the window, although the reset hits the old policy, also on a switch to itself |
| Switching.RoundRobinStep | schedulers/schedPolicy.go:150-156 | a due switch under round robin goes exactly one place around |
| Switching.RevRoundRobinStep | schedulers/schedPolicy.go:160-166 | a due switch under reverse round robin goes exactly one place back |
| Deployments.NearestDeployed | schedulers/schedPolicy.go:84-146 | in every run a switch under task distribution deploys a listed policy nearest to the ratio of the window it installs, bin-packing without a ratio, or at first the configured first policy |
| Deployments.FirstOfTurn | schedulers/schedPolicy.go:150-166 | without a configured first policy, round robin starts with a policy of least distribution and reverse round robin with one of greatest |
| Deployments.NextOfTurn | schedulers/schedPolicy.go:150-166 | later round robin goes from a listed policy to the next entry of the table, after the last to the first, and reverse round robin the other way |
| Deployments.WindowInstalled | schedulers/schedPolicy.go:198-218 | a switch installs the new window unless it is fixed, and nothing else changes window or policy |
| Deployments.DeploymentUsesWindow | schedulers/schedPolicy.go:211-226 | between a switch and the next exactly the window of that deployment is launched |
| Deployments.SortsTheWindow | schedulers/helpers.go:189-191 | every policy but first-fit sorts by watts, lightest first, exactly the shortest prefix that holds the window, or the whole queue without switching |
| Runs.RoundRobinVisitsAll | schedulers/schedPolicy.go:150-166 | in a run under either round robin, any n consecutive switches from a listed policy deploy every listed policy |
| Runs.RoundRobinVisitsOnce | schedulers/schedPolicy.go:150-166 | and none of them twice |
| RoundRobinSafety.FreeWindowSafeIff | schedulers/schedPolicy.go:150-234 | without a fixed window, for at least two instances that need CPU, no run under round robin comes to a switch without a policy exactly when the policy the scheduler is started with is listed, and so is the first policy to deploy if one is configured |
| RoundRobinSafety.FixedWindowSafeIff | schedulers/schedPolicy.go:150-234 | with a fixed window within the workload, whatever policy it is started with, exactly when the window is zero, or the configured first policy is listed, or none is configured and the table is not empty |
| RoundRobinSafety.UnlistedGetsStuck | schedulers/schedPolicy.go:185-226 | a run from an unlisted policy to a switch without a target: a first offer too small for any window, then one that opens a window |
| RoundRobinSafety.UnlistedFirstGetsStuck | schedulers/schedPolicy.go:198-226 | a run that deploys an unlisted first policy, uses up its window, and comes to a switch without a target |
| System.ExactlyOnce | schedulers/MaxMin.go:68-92 | in every reachable state launched and pending ids partition the workload's, none occurs twice, and the queue is empty exactly when all are launched |
| System.WindowRespected | schedulers/MaxMin.go:134-137 | with switching on, in every reachable state the deployed policy's count is at most the window and every other is zero |
| Runs.LaunchesBetweenSwitches | schedulers/base.go:213-218 | from a switch to the next one, the batch consumed in the switching callback included, at most the window of that deployment is launched |
| System.LaunchesWithoutSwitch | schedulers/schedPolicy.go:211-226 | as long as nothing is switched at most the window is launched |
| Runs.EveryAnswerSound | schedulers/MaxMin.go:105-190 | every answer in the log of every run belongs to one offer of one batch; launched tasks match its host and sum to at most the offer; a long decline means nothing is pending; a short one that nothing fits, unless the window is closed or max-min's cursor was stopped |
| Runs.LaunchesAsAsked | schedulers/base.go:122-165 | whatever the driver is told to launch is an instance of the workload with the CPU, RAM and watts its task asks for, on the offer's agent; per offer these sum to at most the offer, and they are what the tracker charges |
| System.SwitchAlwaysDefined | schedulers/schedPolicy.go:185-234 | every switch in every run finds a policy if a fixed window is zero; or, under task distribution, the table is not empty; or, under round robin, the table is not empty and the configured first policy and, without a fixed window, the policy started with are listed |
| System.SortPrefixLegal | schedulers/helpers.go:189-191 | in every reachable state the slice of tasks to sort lies within the queue |
| System.FixedWindowNeverSorts | schedulers/schedPolicy.go:178-183 | with a fixed window no policy ever reorders the queue |
| Startup.Start | scheduler.go:125-210 | table, links, requirements, tracker and scheduler put together are valid, carry the options given, and are an initial state of the run model |
| Scheduler.BaseScheduler.constructor | schedulers/base.go:101-116 | the scheduler starts with the given queue, open, with nothing counted and no offers received |
| Scheduler.BaseScheduler.NewTask | schedulers/base.go:122-165 | the id is that of the current instance number, CPU and RAM are the task's, watts are added when they are a resource and the lookup succeeds |
| Scheduler.BaseScheduler.TakeOffer | schedulers/MaxMin.go:31-48 | true exactly when the totals plus the task stay within the offer, watts only when they are a resource |
| Scheduler.BaseScheduler.TakeWholeOffer | schedulers/first-fit.go:30-46 | first-fit's test against the untouched offer, with or without a failing watts lookup |
| Scheduler.BaseScheduler.CloseShutdown | schedulers/MaxMin.go:85-88 | Shutdown is open before and closed after: it is never closed twice |
| Scheduler.BaseScheduler.Commit | schedulers/bin-packing.go:112-123 | one instance less, removed when none is left, Shutdown closed exactly when the queue empties, all other tasks untouched |
| Scheduler.BaseScheduler.CheckFit | schedulers/MaxGreedyMins.go:56-95 | a fitting instance is launched and charged, otherwise nothing changes |
| Scheduler.BaseScheduler.FillMaxMin | schedulers/MaxMin.go:116-179 | the in-place loop equals the max-min policy on values |
| Scheduler.BaseScheduler.DrainTask | schedulers/MaxGreedyMins.go:171-187 | the inner loop, with removal under its feet, equals draining that entry |
| Scheduler.BaseScheduler.GreedyPass | schedulers/MaxGreedyMins.go:157-188 | the outer loop over the shrinking slice equals the greedy pass |
| Scheduler.BaseScheduler.FillBinPacking | schedulers/bin-packing.go:74-128 | bin-packing's loop equals its policy on values |
| Scheduler.BaseScheduler.FillMaxGreedyMins | schedulers/MaxGreedyMins.go:117-188 | both loops together equal the max-greedymins policy on values |
| Scheduler.BaseScheduler.FillFirstFit | schedulers/first-fit.go:68-112 | first-fit's loop equals its policy on values, also for tasks whose watts lookup fails |
| Scheduler.BaseScheduler.SortNTasks | schedulers/helpers.go:189-191 | the first n tasks are an ordered permutation of what they were, the others stay |
| Scheduler.BaseScheduler.LaunchTasks | schedulers/helpers.go:180-186 | the driver gets one launch call, the tracker charges each task in order |
| Scheduler.BaseScheduler.ConsumeOffer | schedulers/first-fit.go:57-119 | a closed Shutdown declines for long, an offer without launch is declined briefly, otherwise one launch call |
| Scheduler.BaseScheduler.ConsumeOffers | schedulers/bin-packing.go:54-141 | sort, then answer every offer in order: the whole batch on values |
| Scheduler.BaseScheduler.SwitchBasedOn | schedulers/schedPolicy.go:78-166 | the target is that of the state machine, none for round robin from an unlisted policy; under task distribution it is a listed policy nearest to the ratio of the current window, or bin-packing |
| Scheduler.BaseScheduler.ChooseNext | schedulers/schedPolicy.go:198-218 | the window is replaced unless fixed, and the choice is made for the new window |
| Scheduler.BaseScheduler.SwitchIfUsedUp | schedulers/schedPolicy.go:198-234 | nothing changes while the window is not used up; otherwise one switch to the target |
| Scheduler.BaseScheduler.Deploy | schedulers/schedPolicy.go:229-234 | the target is deployed and the count of the policy deployed before is reset |
| Scheduler.BaseScheduler.ComputeWindow | schedulers/schedPolicy.go:176-183 | the window follows from the tracker's unused figures and the queue |
| Scheduler.BaseScheduler.SwitchIfNecessary | schedulers/schedPolicy.go:168-245 | the method makes exactly one step of the switching state machine; a due switch under task distribution leaves a policy deployed that is nearest to the ratio of the new window |
| Scheduler.BaseScheduler.ResourceOffers | schedulers/base.go:205-219 | record, switch, consume with whatever is deployed then: exactly one step of the run model, always a legal one; a due switch under task distribution leaves a policy deployed that is nearest to the ratio of the new window |
| Scheduler.BaseScheduler.StatusUpdate | schedulers/base.go:221-249 | a terminal state releases the task's needs; other states change nothing modelled |
| PowerHistory.AverageClusterPowerHistory | pcp/utils.go:51-68 | the mean of the readings in the ring, zero without any |
| PowerHistory.AverageNodePowerHistory | pcp/utils.go:28-48 | four times that mean |
| PowerHistory.MeanSplits | pcp/utils.go:51-68 | the mean of one value is that value, and means weigh with the number of values |
| PowerHistory.TotalPowerSplits | powerCap/extrema.go:107-117 | the readings of a line are added up |
| PowerHistory.TotalsScaled | powerCap/extrema.go:117-126 | the totals averaged are those of the lines, in units of two to the minus 32 |
| PowerHistory.RingAverages | powerCap/extrema.go:107-126 | after any writes into a fresh ring of n slots the mean is the plain mean of the last n values written |
| PowerHistory.NotedWrites | powerCap/extrema.go:107-113 | a host's ring receives that host's readings, in order, and nothing else |
| PowerHistory.LineAfter | powerCap/extrema.go:94-126 | a further line changes the rings as Monitor.Record does |
| PowerHistory.MeansAfter | powerCap/extrema.go:106-142 | after any lines a host's mean is four times the mean of its last 20 readings and the cluster's the mean of its last 5 totals |
| PowerHistory.Monitor.Record | powerCap/extrema.go:106-126 | a line goes into the host rings and its scaled total into the cluster ring, whose mean is returned |
| PowerHistory.Monitor.Victims | powerCap/extrema.go:135-147 | all hosts, each once, by non-increasing mean power |
| RunningAverage.Calculator.Calculate | utilities/runAvg/runAvg.go:67-86 | the window slides or grows, the cached sum stays the sum of the window, the result is its mean |
| RunningAverage.Calculator.RemoveFromWindow | utilities/runAvg/runAvg.go:88-98 | exactly the first element with the id is removed and the cached sum follows |
| RunningAverage.Singleton.GetInstance | utilities/runAvg/runAvg.go:49-63 | one calculator for ever; a new size is adopted without touching the window |
| RunningAverage.Singleton.Calc | utilities/runAvg/runAvg.go:100-103 | the same over the package's one calculator |
| RunningAverage.Singleton.Remove | utilities/runAvg/runAvg.go:106-113 | removal over the package's one calculator, an error without it |
| RunningAverage.Singleton.Init | utilities/runAvg/runAvg.go:116-126 | empty window, size zero, cached sum in step |
| RunningAverage.WindowIsRecent | utilities/runAvg/runAvg.go:67-86 | with a fixed size and no removals the window is the last min(k, size) values |
| RaplCap.Rapl.Cap | rapl/cap.go:31-65 | an error exactly for a percentage out of range or a host that does not answer |
| Extrema.HighKeepsInv | powerCap/extrema.go:150-162 | capping keeps the list duplicate-free and equal to the hosts marked capped |
| Extrema.LowKeepsInv | powerCap/extrema.go:166-175 | so does uncapping |
| Extrema.HottestUncapped | powerCap/extrema.go:147-162 | the host capped has maximal mean power among the uncapped ones |
| Extrema.StackGrows | powerCap/extrema.go:150-175 | effective rounds never touch the hosts that were capped before them |
| Extrema.BalancedRestores | powerCap/extrema.go:150-175 | k caps followed by k uncaps, or any balanced stretch, restores list and capped set: release in reverse order |
| Extrema.RunTold | powerCap/extrema.go:149-175 | after any rounds nothing but 50 and 100 was sent, a host was last sent 50 exactly if it is marked capped, and a host never sent anything is not marked |
| Extrema.Controller.CapFirst | powerCap/extrema.go:149-162 | the loop caps the first uncapped victim and sends it 50, or does nothing; marks and last requests stay in step |
| Extrema.Controller.UncapLast | powerCap/extrema.go:166-175 | the last host of the list is released and sent 100; marks and last requests stay in step |
| Extrema.Controller.Line | powerCap/extrema.go:94-176 | one line of readings makes one such round; from a new controller on, the hosts last sent 50 are exactly those marked capped, all others were last sent 100 or nothing |
| ProgressiveExtrema.NextCapIsHalfIff | powerCap/progressiveExtrema.go:42-50 | the next value is half the current one exactly when that half has two decimals |
| ProgressiveExtrema.HighKeepsConsistent | powerCap/progressiveExtrema.go:169-222 | a high round keeps list and both maps in step, whichever commands fail |
| ProgressiveExtrema.LowKeepsConsistent | powerCap/progressiveExtrema.go:241-273 | so does a low round |
| ProgressiveExtrema.RunConsistent | powerCap/progressiveExtrema.go:166-277 | over every run, with any failures: no duplicates, list equals keys, further-cappable hosts are those above 12.5 with equal values, values are 50, 25 or 12.5 |
| ProgressiveExtrema.FreshHottest | powerCap/progressiveExtrema.go:167-191 | a fresh victim has maximal mean power among the uncapped hosts that answer |
| ProgressiveExtrema.FurtherHottest | powerCap/progressiveExtrema.go:196-222 | a host capped further has maximal mean power among the answering hosts above the limit |
| ProgressiveExtrema.HighRaises | powerCap/progressiveExtrema.go:164-232 | with all hosts answering a high round raises exactly one host by one level, unless all are at 12.5 |
| ProgressiveExtrema.LowLowers | powerCap/progressiveExtrema.go:241-273 | with the host answering a low round lowers exactly one by one level, if any is capped |
| ProgressiveExtrema.LevelsFollowWalk | powerCap/progressiveExtrema.go:151-277 | without failures the sum of levels depends only on the sequence of high and low rounds |
| ProgressiveExtrema.HighRoundsSaturate | powerCap/progressiveExtrema.go:164-232 | after any rounds, as many high rounds as levels are missing to three per host cap every host at 12.5 |
| ProgressiveExtrema.LowRoundsRelease | powerCap/progressiveExtrema.go:241-273 | as many low rounds as the sum of levels release every host |
| ProgressiveExtrema.HighKeepsPhasedIff | powerCap/progressiveExtrema.go:169-222 | a high round caps a host twice before all are capped once exactly when no uncapped host answers and a capped one does |
| ProgressiveExtrema.RunPhased | powerCap/progressiveExtrema.go:166-277 | without failures, over every run: if some host is at 25 or below then none is uncapped |
| ProgressiveExtrema.NotedAsCommanded | powerCap/progressiveExtrema.go:177-273 | after a round the values are what its last command set if that was answered, otherwise nothing changed |
| ProgressiveExtrema.CommandsArePhases | powerCap/progressiveExtrema.go:177-246 | a round asks for nothing but 12.5, 25, 50 and 100 |
| ProgressiveExtrema.Controller.CapFresh | powerCap/progressiveExtrema.go:167-194 | the loop sends 50 to each fresh victim until one answers and notes it, else collects the capped ones |
| ProgressiveExtrema.Controller.CapFurther | powerCap/progressiveExtrema.go:196-232 | the loop sends each collected host above the limit its next phase until one answers and notes it |
| ProgressiveExtrema.Controller.PickLowest | powerCap/progressiveExtrema.go:241-244 | a tracked host of lowest value |
| ProgressiveExtrema.Controller.Unlist | powerCap/progressiveExtrema.go:255-260 | the host is cut out of the list in place |
| ProgressiveExtrema.Controller.Uncap | powerCap/progressiveExtrema.go:240-273 | one command, to a host of lowest value: it is doubled, or forgotten at 100 |
| ProgressiveExtrema.Controller.Line | powerCap/progressiveExtrema.go:112-277 | one line makes one round and sends exactly that round's commands |
| Counterexamples.GreedyNotPacked | schedulers/bin-packing.go:80-128 | two small tasks, room for both, only one launched |
| Counterexamples.TightYetPacked | schedulers/bin-packing.go:80-128 | three tasks, the last fits beside its neighbour, and yet the offer is left packed |
| Counterexamples.MaxMinDeclinesUsableOffer | schedulers/MaxMin.go:128-189 | three tasks, the lightest fits, the offer is declined |
| Counterexamples.EmptyClusterBreaksRanks | def/taskUtils.go:122-155 | three clusters, the middle one empty: each gets one win |
| Counterexamples.OneClusterNoError | def/taskUtils.go:238-255 | one task labelled 1 gives a ratio of zero and no error |
| Counterexamples.AveragesMoreThanAsked | utilities/runAvg/runAvg.go:67-103 | three values, the last with size 1: the average returned is that of two |
| Counterexamples.FailureBreaksPhases | powerCap/progressiveExtrema.go:169-222 | one silent host, and the other goes from 50 to 25 |
| Counterexamples.ClassWattsGoNegative | utilities/trackResourceUsage.go:57-61 | a task of 20 watts and class watts 5 on an offer of 10: unused watts are negative |
| Counterexamples.UnlistedPolicyStuck | schedulers/schedPolicy.go:150-156 | round robin from a policy that is not in the table names no next policy |

## Left out

- FillFirstFit: the launch call to the driver comes after the counter is decremented, in the source just before; nothing reads either in between.
- CheckFit: bin-packing repeats this code inline; the model shares one method for it, as it shares the greedy pass between bin-packing and max-greedymins.
- TakeOffer: the process ending on a failing watts lookup is not modelled; for all policies but first-fit such tasks are excluded by a precondition.
- NewTask: does not carry name, image, command and container, because nothing reads them again.
- StatusUpdate: does not keep the sets and the count of running tasks nor close Done; exactly-once for Done would need assumptions about the order of status updates.
- constructor: excludes an empty workload, which start-up refuses, and tasks with no instances, which no validator refuses and of which the source would launch one with instance number 0 or below.
- Start: excludes the same and, with switching on, configurations under which some run finds no policy to switch to, because the source then calls a method on a nil policy; `FreeWindowSafeIff` and `FixedWindowSafeIff` say exactly which those are under round robin.
- ChooseNext: for the task-distribution criterion it assumes a non-empty table, whose first element the source reads.
- SwitchIfUsedUp: assumes what Start does, so that there is a policy to deploy.
- SwitchIfNecessary: assumes what Start does, so that there is a policy to deploy.
- NeverOvercommitted: says nothing about watts of tasks charged by class, for which `ClassWattsOvercommit` shows it false.
- GetTaskDistributionInWindow: assumes distinct task names, without which it subtracts the surplus once per task of that name and may divide by zero; the window it gets is positive at its only call, and the queue is a snapshot of values.
- PackedIfNoneTight: goes one way only; the exact conditions are `BinPackingPackedIff`, `GreedyMinsPackedIff` and `AmplePackedIff`.
- Line: the parsing of the header and of the columns of a line is replaced by a list of readings per host.
- The inside of k-means, of the median and of Go's sort: an arbitrary labelling, an arbitrary number per task, an insertion sort of which only the order and the permutation are used.
- The registry of known hosts and power classes, and the map from host names to agents.
- Logging, flags, JSON files, validators, the PCP processes, SSH, signals, sleeps and mutexes.
- Rounding of floating-point numbers.
