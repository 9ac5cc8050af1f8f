# Verified models of the scheduler plugins

This project models the core of a set of Kubernetes scheduler plugins and proves properties of
the model. Code that updates objects, maps or lists in place is a class or a method with loops,
proved against a specification; the properties are lemmas about that specification, for all
inputs, all reachable states or all runs.

`dafny verify dfyconfig.toml` checks everything.

## The parts

**The OverReserve cache and the NUMA filter.** The cache answers with a stale per-zone topology
(NRT) from which every pod reserved since the last flush has been subtracted in every zone.
`OverReserve` has the objects, `OverReserveModel` the same operations on values, and
`OverReserveRuns` couples the cache with kubelets that place reserved pods wherever they like,
with foreign pods and with resyncs. The main result, `FreshCopyNeverOverstates`, is the cache's
design goal. `ResyncRuns` takes a resync apart: node agents measure, a resync begins, collects and
flushes, and everything else goes on in between. `NumaFilter` has the lowest-zone search and the two
handlers, `MoreRoom` what more room does to the container handler; `NoFalsePositives` joins cache and
filter: a pod accepted on a cached copy really fits, on top of all pods still to be placed.

**Least NUMA nodes.** `LeastNuma` has the search for the smallest and closest group of NUMA
nodes and the accounting of one container after another.

**Elastic quotas.** `QuotaModel` and `ElasticQuotas` have the quotas as values and as objects,
`QuotaEvents` every event that changes them, `QuotaSafety` the admission check and its safety
over runs.

**Preemption.** `DisruptionBudgets`, `Reprieve` and `VictimSelection` are shared by the two
plugins: the split by PodDisruptionBudget, the greedy choice over a trial order and what it is
worth. `PreemptionToleration` and `CapacityPreemption` have the plugins' victim selections,
`CapacityFailures` the inputs on which the latter goes wrong.

**Smaller plugins.** `SySched` (incremental system-call index), `Reservations` (the rescheduler's
table), `BetaFit` (moment fit over reals), `NetworkCosts` (sorted cost lists and bisection).

## Conventions

- Each lock-protected method is one atomic step. Logging, contexts and clients are left out.
- The filter plugins are a predicate over the set of pods on the node. The clock, the API
  server's answers, label selectors, fingerprint comparison, system-call profiles, the square root
  and the beta distribution function are parameters.
- Quantities are mathematical integers and reals. Requests and elastic-quota minimums are not
  negative. Map iteration picks any remaining key, so every result holds for every order. Sorting
  is known to callers only as a sorted permutation, so no result depends on how ties fall.
- That no victim is needless is stated for filters whose verdict survives removing pods; a filter
  that needs another pod on the node, as pod affinity does, has no such guarantee.
- `HaveKeys` says that pods have UIDs, each its own; a UID determines the request.

## Results that differ from what the code suggests

- A flush can break the cache's promise in three ways. A pod reserved between reading and flushing is
  forgotten, since the branch for changed attributes compares no fingerprint (`StaleFlushOverstates`);
  the mark of a foreign pod that started there is erased (`FlushErasesForeignMark`); and, with no gap
  at all, a matching fingerprint lets a pod be forgotten that is reserved and still waits: the listing
  leaves out pods in phase Pending, and the fingerprint names the pods that were running when the NRT
  was measured (`MatchForgetsWaitingPod`).
- A flush is safe if and only if, of everything the NRT offers, what pods and foreign pods it does not
  show hold or may still ask for is covered by what has been given back since it was measured
  (`FlushIsSafeIff`). With a match, and as long as nothing was given back, that means exactly that no
  waiting pod asks for anything offered (`MatchSettlesIff`). A test the cache could make under the lock
  is enough: it tracks on the node only pods the NRT shows as running. With NRTs newer than the last
  flush of their node, no reused names and no new foreign pods, every course whose flushes pass this
  test is safe (`TestedCoursesNeverOverstate`).
- In the capacity plugin's reprieve loop a pod that does not fit is taken off the node before the
  quota test, and again if the test fails without it. The second removal fails and the whole
  selection with it. `SelectVictimsOnNode` returns this failure if and only if the nominated pods
  alone are over quota and some candidate, put back alone, does not fit (`StuckExactlyWhen`);
  `SelectionCanFail` is such an input.
- The number of violating victims that plugin reports leaves out those evicted for the quotas alone
  (`ReportedNumber`, with the input `ViolatingVictimNotCounted`). After the first pass it is known to
  be right if the quotas hold with all candidates back (`NumberIsRight`), and, if the nominated pods
  alone are over quota, right exactly when no candidate violates a budget (`NumberIsRightIff`).
- With container scope more room can reject a pod that less room accepts (`MoreRoomCanReject`). It
  leaves every container where it was, and the pod accepted, if and only if no lower node has come to
  hold a container at its turn (`SamePicksIff`); room added only at or above the highest node used
  never rejects (`RoomAbovePicks`). With pod scope more room never rejects (`MoreRoomStillAccepts`).
- The least-NUMA search starts from a distance of 256, so a fitting group is passed over exactly when
  its mean distance is 256 or more (`Usable`, `FarGroupIsPassedOver`). With distances of at most 255
  that never happens (`BoundedFitIsUsable`).
- A rejected Reserve of the rescheduler also drops the reservation the pod already had
  (`RetriedReserveForgets` is such an input, `ReservationIsLastReserve` the rule for all runs).

## Model

| member | source | states |
|---|---|---|
| OverReserve.ResourceStore.AddPod | pkg/noderesourcetopology/cache/store.go:100-112 | tracks the request under the pod's key, over any earlier one, and tells whether there was one |
| OverReserve.ResourceStore.DeletePod | pkg/noderesourcetopology/cache/store.go:114-125 | forgets exactly that key and tells whether it was there |
| OverReserve.ResourceStore.UpdateNRT | pkg/noderesourcetopology/cache/store.go:127-160 | zones, names and order are kept; each entry is left at what it had minus the sum of what all tracked pods ask for of that name, or at zero if that is more; in whatever order the map is walked |
| NodeTopology.LoweredTwice | pkg/noderesourcetopology/cache/store.go:147-156 | subtracting two requests one after the other, each stopping at zero, equals subtracting their sum once |
| OverReserve.OverReserve.GetCachedNRTCopy | pkg/noderesourcetopology/cache/overreserve.go:101-127 | fresh exactly without foreign pods, nothing exactly for a foreign or unknown node; else a new copy whose entries have the sum of all tracked requests of that name gone, as far as there was any |
| OverReserve.OverReserve.NodeMaybeOverReserved | pkg/noderesourcetopology/cache/overreserve.go:129-134 | the discard count of the node, zero at first, grows by one; nothing else changes |
| OverReserve.OverReserve.NodeHasForeignPods | pkg/noderesourcetopology/cache/overreserve.go:136-146 | the foreign count of the node grows by one if its NRT is known, else nothing changes |
| OverReserve.OverReserve.ReserveNodeResources | pkg/noderesourcetopology/cache/overreserve.go:148-163 | the pod is tracked on the node, over an earlier request of its key, other nodes keep theirs, the discard count is gone and all else stays |
| OverReserve.OverReserve.UnreserveNodeResources | pkg/noderesourcetopology/cache/overreserve.go:165-179 | the key is gone on that node, all else tracked stays |
| OverReserveModel.ReserveLowersAnswer | pkg/noderesourcetopology/cache/overreserve.go:148-163 | reserving an untracked pod lowers every entry of the next answer by exactly its request, or by all that is shown |
| OverReserveModel.UnreserveRestoresAnswer | pkg/noderesourcetopology/cache/overreserve.go:165-179 | unreserving it restores the answer |
| OverReserve.OverReserve.GetDesyncedNodes | pkg/noderesourcetopology/cache/overreserve.go:211-244 | the dirty nodes are exactly those foreign or discarded, next to those whose attributes changed |
| OverReserve.CollectUpdates | pkg/noderesourcetopology/cache/overreserve.go:277-337 | a node is collected exactly if it is dirty, its NRT can be read and carries a fingerprint that matches the pods listed on it, or its attributes changed and its NRT can be read; always with the NRT read |
| OverReserve.OverReserve.Resync | pkg/noderesourcetopology/cache/overreserve.go:254-340 | whatever calls other threads get in between: the nodes found desynced at the start answer fresh with the NRT read and nothing tracked, all others as those calls left them, and the generation moves only if there were any |
| OverReserve.OverReserve.FlushNodes | pkg/noderesourcetopology/cache/overreserve.go:343-365 | installs each NRT, drops everything cached about its node, and increases the generation once unless the list is empty |
| OverReserveModel.FlushOnNode | pkg/noderesourcetopology/cache/overreserve.go:347-354 | after a flush a named node holds the last NRT handed in for it, with nothing tracked and no mark or count of any kind; other nodes are untouched |
| OverReserveModel.ResyncByNode | pkg/noderesourcetopology/cache/overreserve.go:246-340 | flushing the updates collected from one cache into any later one refreshes exactly the nodes it should, node by node |
| OverReserveRuns.StepKeepsInvariant | pkg/noderesourcetopology/cache/overreserve.go:101-179 | reserve, unreserve, placement, finish, foreign pods and accounted flushes all keep the balance between a stale NRT and what is really free |
| OverReserveRuns.FreshCopyNeverOverstates | pkg/noderesourcetopology/cache/store.go:131-135 | in every run whose flushed NRTs account for the reserved pods, every fresh copy shows, in each zone and resource, at most what is free there, with room left for every reserved pod still to be placed, wherever pods were placed |
| OverReserveRuns.ForeignUntilFlushed | pkg/noderesourcetopology/cache/overreserve.go:105-107 | a node marked foreign gives no fresh copy in any run until it is flushed |
| OverReserveRuns.GenerationNamesTheNrts | pkg/noderesourcetopology/cache/overreserve.go:356-363 | in any run, equal generations mean that no cached NRT was replaced in between |
| OverReserveRuns.ResyncKeepsInvariant | pkg/noderesourcetopology/cache/overreserve.go:246-253 | updates collected from an earlier cache may be flushed if they account for the pods reserved by then |
| ResyncRuns.EventKeeps | pkg/noderesourcetopology/cache/overreserve.go:148-179 | every event keeps the account of a measured NRT: what is free and what was measured differ exactly by what unseen pods hold, foreign pods took and others gave back |
| ResyncRuns.CourseKeepsAll | pkg/noderesourcetopology/cache/overreserve.go:246-340 | on every course of measurements, resyncs in progress and other events, however flushes fall, all accounts add up |
| ResyncRuns.FlushIsSafeIff | pkg/noderesourcetopology/cache/overreserve.go:343-365 | on every course, the answer a flush leaves keeps the promise if and only if the node is settled with respect to the flushed NRT |
| ResyncRuns.SettledWhenUntouched | pkg/noderesourcetopology/cache/overreserve.go:343-365 | as long as nothing was given back, settled means exactly that nothing offered was taken, or can be asked for, by a pod the NRT does not show |
| ResyncRuns.SettledCourseIsRun | pkg/noderesourcetopology/cache/overreserve.go:254-365 | a course whose flushes are settled is a run of the cache protocol, so all results about runs hold of it |
| ResyncRuns.SettledCoursesNeverOverstate | pkg/noderesourcetopology/cache/store.go:131-135 | on every such course, however long an NRT takes from measurement to flush, fresh copies never overstate |
| ResyncRuns.NewlySettled | pkg/noderesourcetopology/cache/overreserve.go:322-337 | a new measurement is settled exactly when no pod waiting on the node asks for what it offers |
| ResyncRuns.QuietKeepsPublished | pkg/noderesourcetopology/cache/overreserve.go:277-337 | a published NRT stays settled until it is collected while nothing is reserved and no foreign pod starts on the node |
| ResyncRuns.QuietKeepsSettled | pkg/noderesourcetopology/cache/overreserve.go:260-339 | a collected NRT stays settled until it is flushed while nothing is reserved and no foreign pod starts on the node |
| ResyncRuns.MatchSettlesIff | pkg/noderesourcetopology/cache/overreserve.go:299-316 | when the fingerprint is that of a listing of all running pods, with no reused name and no foreign take, a node is settled if no waiting pod asks for what the NRT offers, and only if, as long as nothing was given back |
| ResyncRuns.TestedSettles | pkg/noderesourcetopology/cache/overreserve.go:343-354 | if the cache tracks on a node only pods the NRT shows as running, the NRT is newer than the last flush of the node, no name was used again and no foreign pod took anything, then the node is settled and no pod waits there |
| ResyncRuns.TestedCourse | pkg/noderesourcetopology/cache/overreserve.go:254-365 | on every course whose flushes pass that test, all flushes are settled and the cache tracks every waiting pod |
| ResyncRuns.TestedCoursesNeverOverstate | pkg/noderesourcetopology/cache/store.go:131-135 | on every such course, with any gap between measuring, collecting and flushing, fresh copies never overstate |
| ResyncRuns.GapOpens | pkg/noderesourcetopology/cache/overreserve.go:322-339 | a resync of a node with changed attributes that has collected a true NRT, and all it may collect, and has not flushed |
| ResyncRuns.StaleFlushOverstates | pkg/noderesourcetopology/cache/overreserve.go:260-340 | from a resync of changed attributes in progress: a pod reserved before the flush is forgotten, and the node is offered as empty after the pod took all of it |
| ResyncRuns.FlushErasesForeignMark | pkg/noderesourcetopology/cache/overreserve.go:347-354 | in the same gap a foreign pod takes all of the node and marks it; the flush erases the mark and offers the node as empty |
| ResyncRuns.MatchForgetsWaitingPod | pkg/noderesourcetopology/cache/overreserve.go:277-320 | nothing happens between measurement and flush and the fingerprint is that of the pods listed, yet the flush forgets a waiting pod and the node is offered as empty after the pod took all of it |
| NumaNodes.ExtractResources | pkg/noderesourcetopology/pluginhelpers.go:153-159 | the names listed by the zone, and no others, with the last quantity given for each |
| NumaNodes.CreateNUMANodeList | pkg/noderesourcetopology/pluginhelpers.go:103-132 | one entry for each NUMA zone, in order; other zones skipped |
| NumaNodes.NodeFromZone | pkg/noderesourcetopology/pluginhelpers.go:107-124 | every entry of the list is a zone of the NRT, with its id and quantities |
| NumaNodes.NodesZoneByZone | pkg/noderesourcetopology/pluginhelpers.go:103-132 | the list of a concatenation is the concatenation of the lists, so the order of zones is kept |
| NumaNodes.NodesOfOne | pkg/noderesourcetopology/pluginhelpers.go:106-124 | a zone of kind Node with an id up to 64 gives one entry, any other zone none |
| NumaNodes.ExtractedIsLast | pkg/noderesourcetopology/pluginhelpers.go:153-159 | of several entries with one name the last one counts |
| NumaNodes.ExemptMeans | pkg/noderesourcetopology/numaresources.go:120-142 | the quantity is waived exactly for cpu, memory and hugepages- names of pods that are not Guaranteed |
| NumaNodes.HostLevelMeans | pkg/noderesourcetopology/numaresources.go:105-118 | the host may provide exactly the two storages and names with a slash outside kubernetes.io/ |
| NumaFilter.ResourcesAvailableInAnyNUMANodes | pkg/noderesourcetopology/filter.go:93-161 | for any order of the request, accepts exactly when all of it is known on the node and some id up to 63 takes it: each nonzero resource that some zone lists is listed by a zone of that id, with enough of it unless it is cpu, memory or hugepages- of a pod that is not Guaranteed, and one that no zone lists may be provided by the host; then the lowest such id |
| NumaFilter.BestMeans | pkg/noderesourcetopology/filter.go:95-161 | the pick in the same plain words, both directions |
| NumaFilter.PickedZoneHasAll | pkg/noderesourcetopology/filter.go:121-160 | with distinct ids and any QoS the picked zone lists every nonzero resource that some zone lists and has enough of it, except cpu, memory and hugepages- of pods that are not Guaranteed |
| NumaFilter.FittingIds | pkg/noderesourcetopology/filter.go:121-136 | the ids of the zones with enough of the resource, and whether any zone lists it |
| NumaFilter.SingleNUMAPodLevelHandler | pkg/noderesourcetopology/filter.go:163-181 | accepts exactly when the request is known on the node and some id takes it, in the same plain words |
| NumaFilter.MoreRoomStillAccepts | pkg/noderesourcetopology/filter.go:163-181 | with at least as much in every zone, an accepted pod is still accepted, on no higher an id |
| NumaFilter.TakeFromNode | pkg/noderesourcetopology/numaresources.go:155-177 | in any order takes from the node all that is accounted to it, or fails, exactly when something would go negative |
| NumaFilter.TakenMeans | pkg/noderesourcetopology/numaresources.go:155-177 | a node pays exactly when it has the share of every resource it lists, which is the request or, for waived names, nothing; it keeps the rest |
| NumaFilter.SubtractResourcesFromNUMANodeList | pkg/noderesourcetopology/numaresources.go:144-182 | fails exactly when a node with that id lacks something; else those nodes lose the accounted request and all others are untouched |
| NumaFilter.BestCanSubtract | pkg/noderesourcetopology/filter.go:83-87 | when no two nodes share an id, the chosen node can always pay, so the accounting error is unreachable |
| NumaFilter.SingleNUMAContainerLevelHandler | pkg/noderesourcetopology/filter.go:44-91 | the verdict is that of placing the containers one by one; acceptance is a packing: in each zone what is left plus all that was placed there is what there was; each container is on the lowest id that held it; rejection names a container no node holds; the accounting error needs two nodes of one id and an id that cannot pay |
| NumaFilter.PackOneMore | pkg/noderesourcetopology/filter.go:81-83 | placing one more container keeps what is left plus what was placed equal to what there was |
| NumaFilter.LoadIsSum | pkg/noderesourcetopology/filter.go:83-87 | what is accounted on an id is the sum of the shares of exactly the containers placed there |
| MoreRoom.MoreRoomCanReject | pkg/noderesourcetopology/filter.go:70-89 | two zones and two containers where more CPUs turn the verdict from acceptance into rejection |
| MoreRoom.SamePickIff | pkg/noderesourcetopology/filter.go:148-160 | with more room the same node is picked exactly when no lower one has come to hold the request |
| MoreRoom.SamePicksIff | pkg/noderesourcetopology/filter.go:70-89 | with more room all containers go where they went, and the pod is accepted, if and only if at no turn a node below the pick holds the container in what the picks before leave |
| MoreRoom.RoomAbovePicks | pkg/noderesourcetopology/filter.go:70-89 | room added only at or above the highest pick changes no pick and rejects nothing |
| MoreRoom.MoreRoomKeepsVerdict | pkg/noderesourcetopology/filter.go:44-91 | under that condition the verdict with init containers stays acceptance |
| NoFalsePositives.PodVerdictIsReal | pkg/noderesourcetopology/filter.go:200-218 | in every such run, a pod accepted on a cached copy with pod scope really fits the chosen NUMA node on top of all pods still to be placed: every nonzero resource that some zone reports, except cpu, memory and hugepages- of pods that are not Guaranteed; with distinct ids in one zone; one that no zone reports may be provided by the host |
| NoFalsePositives.ContainerPackingIsReal | pkg/noderesourcetopology/filter.go:200-218 | in every such run, a packing found on a cached copy with container scope fits what is really free in every zone, all containers at once, on top of all pods still to be placed |
| LeastNuma.CombinationsSound | pkg/noderesourcetopology/least_numa.go:169 | only groups of the wanted size are tried |
| LeastNuma.CombinationsComplete | pkg/noderesourcetopology/least_numa.go:169 | every group of the wanted size is tried |
| LeastNuma.NodesAvgDistance | pkg/noderesourcetopology/least_numa.go:124-146 | mean over all ordered pairs, unknown distances counting as the largest, and the largest for no nodes |
| LeastNuma.AvgIsMean | pkg/noderesourcetopology/least_numa.go:124-146 | the sum over all ordered pairs of the cost from the first to the second, 255 where none is listed, divided by the number of pairs |
| LeastNuma.AvgDistanceBounded | pkg/noderesourcetopology/least_numa.go:32-35 | with distances of at most 255, as section 5.2.17 (SLIT) of the ACPI Specification bounds them, so is the mean |
| LeastNuma.MinAvgDistanceInCombinations | pkg/noderesourcetopology/least_numa.go:110-122 | a lower bound of all means that is one of them, or 255 |
| LeastNuma.CombineResources | pkg/noderesourcetopology/least_numa.go:148-162 | what the group's nodes hold together of each resource |
| LeastNuma.IsValidCombineResources | pkg/noderesourcetopology/least_numa.go:232-241 | every node of the group lists every requested resource |
| LeastNuma.CheckResourcesFit | pkg/noderesourcetopology/least_numa.go:218-230 | every nonzero request is covered, or is cpu, memory or hugepages- of a pod that is not Guaranteed |
| LeastNuma.FitsMeans | pkg/noderesourcetopology/least_numa.go:218-241 | a group fits exactly when each of its nodes lists every requested name and the sum of what they have covers each request, waived names excepted |
| LeastNuma.UsableMeans | pkg/noderesourcetopology/least_numa.go:189-210 | usable is fitting with a mean distance below 256 |
| LeastNuma.BoundedFitIsUsable | pkg/noderesourcetopology/least_numa.go:187-216 | with distances of at most 255 the search passes over no fitting group |
| LeastNuma.FarGroupIsPassedOver | pkg/noderesourcetopology/least_numa.go:189-213 | a node with room, 256 away from itself, that is never chosen |
| LeastNuma.FindSuitableCombination | pkg/noderesourcetopology/least_numa.go:184-216 | the first among the closest fitting groups of the list; none exactly when no fitting group has a mean distance below 256; the flag exactly when no group of the list is closer and the mean is at most 255 |
| LeastNuma.NumaNodesRequired | pkg/noderesourcetopology/least_numa.go:164-182 | a group of least size over all fitting groups with a mean distance below 256, closest of that size; nothing only if there is none; the flag exactly when the mean is at most 255 and no group of that size is closer |
| LeastNuma.SubtractFromNUMAs | pkg/noderesourcetopology/numaresources.go:184-215 | each chosen zone keeps max(0, available - what the zones before it could not cover), other zones and resources are untouched |
| LeastNuma.DrainConserves | pkg/noderesourcetopology/numaresources.go:184-215 | of each resource exactly min(request, total of the chosen zones) leaves them and the node |
| LeastNuma.DrainsInOrder | pkg/noderesourcetopology/numaresources.go:184-215 | a zone gives something only after all chosen zones before it have given everything |
| LeastNuma.PlaceContainer | pkg/noderesourcetopology/least_numa.go:46-68 | skips a container exactly when no node lists anything it asks for, else places it on a least group and drains that group; no change if there is no usable group |
| LeastNuma.LeastNUMAContainerScopeScore | pkg/noderesourcetopology/least_numa.go:37-76 | 0 at the first container without a usable group in what is left; else 100 when all were skipped, or 100 less 12 for each node of the largest group needed, with 6 more if every group was closest |
| LeastNuma.FewerNodesScoreHigher | pkg/noderesourcetopology/least_numa.go:99-108 | fewer nodes always score higher, and among equally many the closest do |
| LeastNuma.LargestGroupMeans | pkg/noderesourcetopology/least_numa.go:62-64 | no group placed is larger, and one is as large |
| LeastNuma.GuaranteedIsConserved | pkg/noderesourcetopology/least_numa.go:45-69 | for a Guaranteed pod, at every point of the loop, what has left the zones is exactly what the containers placed so far asked for |
| QuotaModel.ExceedsSomewhere | pkg/capacityscheduling/elasticquota.go:193-221 | the comparison holds exactly when some checked dimension exceeds its limit |
| QuotaModel.ExceedsIsMonotone | pkg/capacityscheduling/elasticquota.go:193-221 | larger operands exceed whatever smaller ones exceed |
| QuotaModel.OverMinSomewhere | pkg/capacityscheduling/elasticquota.go:125-131 | a quota is over min exactly when its use is greater in some dimension |
| QuotaModel.UsedOverMinWithMeans | pkg/capacityscheduling/elasticquota.go:109-115 | over min with a request exactly when, in some dimension the request names, the use with it is above the min |
| QuotaModel.UsedOverMaxWithMeans | pkg/capacityscheduling/elasticquota.go:117-123 | over max with a request exactly when, in some dimension the request names, the use with it is above the max, the largest integer where the max names none |
| QuotaModel.UsedOverMinMeans | pkg/capacityscheduling/elasticquota.go:125-131 | over min exactly when some dimension the use names is above the min |
| QuotaModel.AggregatedUsedOverMinWith | pkg/capacityscheduling/elasticquota.go:48-59 | true exactly when the sum of all use and the request exceeds the sum of the minimums in some dimension, in whatever order |
| ElasticQuotas.ElasticQuotaInfo.constructor | pkg/capacityscheduling/elasticquota.go:71-87 | no pods and no use, with the bounds that stand for a missing min or max |
| ElasticQuotas.ElasticQuotaInfo.ReserveResource | pkg/capacityscheduling/elasticquota.go:89-97 | use grows by the request in every dimension, scalar resources in any order |
| ElasticQuotas.ElasticQuotaInfo.UnreserveResource | pkg/capacityscheduling/elasticquota.go:99-107 | use shrinks by the request in every dimension |
| ElasticQuotas.ElasticQuotaInfo.AddPodIfNotPresent | pkg/capacityscheduling/elasticquota.go:155-170 | counts the pod and its request once; a pod without UID is an error and changes nothing |
| ElasticQuotas.ElasticQuotaInfo.DeletePodIfPresent | pkg/capacityscheduling/elasticquota.go:172-187 | gives back a counted pod's request; an uncounted pod changes nothing |
| ElasticQuotas.ElasticQuotaInfo.Clone | pkg/capacityscheduling/elasticquota.go:133-153 | a new object with the same value |
| ElasticQuotas.ElasticQuotaInfos.Clone | pkg/capacityscheduling/elasticquota.go:40-46 | new objects throughout, with the same values |
| ElasticQuotas.ElasticQuotaInfos.AddPod | pkg/capacityscheduling/capacity_scheduling.go:289-307 | only the quota of the pod's namespace changes, and only if there is one |
| ElasticQuotas.ElasticQuotaInfos.RemovePod | pkg/capacityscheduling/capacity_scheduling.go:310-328 | only the quota of the pod's namespace changes, and only if there is one |
| ElasticQuotas.ElasticQuotaInfos.Reserve | pkg/capacityscheduling/capacity_scheduling.go:349-363 | the pod is counted in its namespace's quota; an error only for a pod without UID whose namespace has a quota |
| ElasticQuotas.ElasticQuotaInfos.Unreserve | pkg/capacityscheduling/capacity_scheduling.go:365-378 | the pod is no longer counted |
| ElasticQuotas.ElasticQuotaInfos.AddElasticQuota | pkg/capacityscheduling/capacity_scheduling.go:676-688 | a new quota unless the namespace has one |
| ElasticQuotas.ElasticQuotaInfos.UpdateElasticQuota | pkg/capacityscheduling/capacity_scheduling.go:690-704 | new limits with the pods and use of the quota replaced |
| ElasticQuotas.ElasticQuotaInfos.DeleteElasticQuota | pkg/capacityscheduling/capacity_scheduling.go:706-711 | the namespace's quota is gone, all others stay |
| ElasticQuotas.ElasticQuotaInfos.PodAddedEvent | pkg/capacityscheduling/capacity_scheduling.go:713-749 | counts the pod, in a quota made from the listed one if need be |
| ElasticQuotas.ElasticQuotaInfos.PodUpdatedEvent | pkg/capacityscheduling/capacity_scheduling.go:751-773 | a pod that stops running is no longer counted; a pod that had finished is ignored |
| ElasticQuotas.ElasticQuotaInfos.PodDeletedEvent | pkg/capacityscheduling/capacity_scheduling.go:775-789 | the pod is no longer counted |
| ElasticQuotas.RunOnSnapshot | pkg/capacityscheduling/capacity_scheduling.go:289-328 | any sequence of dry-run adds and removes on a snapshot leaves the live quotas as they were |
| QuotaEvents.UseIsSumOfRequests | pkg/capacityscheduling/elasticquota.go:155-187 | in every run of all events each quota's use is the sum of the requests of exactly the pods it counts |
| QuotaEvents.CountedAfter | pkg/capacityscheduling/capacity_scheduling.go:676-789 | who is counted after each event, by namespace and UID |
| QuotaEvents.QuotasAfter | pkg/capacityscheduling/capacity_scheduling.go:676-749 | which quotas there are after each event, and with which limits |
| QuotaSafety.PreFilter | pkg/capacityscheduling/capacity_scheduling.go:204-281 | records, in every dimension, the request plus the requests of exactly the nominated pods of the same namespace that are at least as important and, overall, of those of other live quotas used in no dimension beyond their min; accepts exactly when the use with the first sum is within max in every dimension it names and all use with the second within the joint min |
| QuotaSafety.AdmittedAlone | pkg/capacityscheduling/capacity_scheduling.go:263-278 | acceptance with the nominated pods implies acceptance of the pod alone |
| QuotaSafety.LimitsHoldOverRuns | pkg/capacityscheduling/capacity_scheduling.go:204-206 | in every run of admissions, each reserved or given up before the next, and departures at any time, every quota stays within max and all within their joint min, in every dimension |
| QuotaSafety.FreshQuotasWithinLimits | pkg/capacityscheduling/elasticquota.go:71-87 | new quotas are within limits |
| DisruptionBudgets.ChargeBudgets | pkg/capacityscheduling/capacity_scheduling.go:894-923 | a budget is charged, once, exactly if it is of the namespace, its selector is valid, not empty and matches the labels, and the pod is not disrupted already; reports whether a charged one was used up |
| DisruptionBudgets.FilterPodsWithPDBViolation | pkg/capacityscheduling/capacity_scheduling.go:881-931 | a pod is violating exactly when some budget it draws on is used up at its place in the list; both groups keep the order |
| DisruptionBudgets.ViolatesMeans | pkg/capacityscheduling/capacity_scheduling.go:912-922 | a pod violates exactly when, up to and with it, more pods draw on some budget it draws on than are allowed |
| DisruptionBudgets.ViolatingComeFirst | pkg/preemptiontoleration/preemption_toleration.go:278-290 | in trial order no violating pod comes after one that does not violate |
| DisruptionBudgets.PartsPartition | pkg/preemptiontoleration/preemption_toleration.go:369-414 | the two groups are a partition of the pods |
| DisruptionBudgets.PartSorted | pkg/preemptiontoleration/preemption_toleration.go:364-368 | the groups of a sorted list are sorted |
| Pods.SortedMeans | pkg/capacityscheduling/capacity_scheduling.go:620-624 | sorted is falling priority, and among equals the pod that started first comes first |
| DisruptionBudgets.NonViolatingWithinBudget | pkg/preemptiontoleration/preemption_toleration.go:398-404 | at most the allowed number of non-violating pods draws on any budget |
| Reprieve.GreedyIsBest | pkg/preemptiontoleration/preemption_toleration.go:258-260 | when acceptance survives putting back less, no acceptable choice is lexicographically better than the greedy one |
| Reprieve.GreedyIsMaximal | pkg/preemptiontoleration/preemption_toleration.go:258-260 | nor can the greedy choice be extended by one pod |
| PreemptionToleration.CandidatesOnlyGrow | pkg/preemptiontoleration/preemption_toleration.go:129-236 | a candidate for preemption stays one, later and for a stronger preemptor |
| PreemptionToleration.TakeCandidates | pkg/preemptiontoleration/preemption_toleration.go:215-236 | fails exactly when a less important pod names an unknown class; else takes off exactly the less important pods that name no class, or whose class has a malformed annotation, a minimum priority the preemptor has (one above the class value if absent), or seconds (0 if absent) that are not negative and have passed since the pod was scheduled, given a preemptor that may preempt |
| PreemptionToleration.VerdictMeans | pkg/preemptiontoleration/preemption_toleration.go:129-181 | the verdict on one pod in the same terms |
| PreemptionToleration.ReprievePod | pkg/preemptiontoleration/preemption_toleration.go:262-277 | puts the pod back if the preemptor fits with it, else leaves the node as it was; never fails |
| PreemptionToleration.SelectVictimsOnNode | pkg/preemptiontoleration/preemption_toleration.go:188-297 | each outcome exactly in its case; a selection is the greedy choice in trial order, with the victims sorted; every victim is a listed, less important pod that does not tolerate the preemptor in those terms, and no victims means there is no such pod |
| PreemptionToleration.SelectionIsOptimal | pkg/preemptiontoleration/preemption_toleration.go:183-187 | the preemptor fits, victims are distinct candidates, and the number reported is that of the violating victims; for filters whose fit survives removing pods, no victim is needless and the spared pods are the lexicographically best feasible ones |
| PreemptionQuotas.TracksAdd | pkg/capacityscheduling/capacity_scheduling.go:522-529 | adding a pod to the snapshot accounts it in its quota and nothing else |
| PreemptionQuotas.TracksRemove | pkg/capacityscheduling/capacity_scheduling.go:512-521 | removing it again restores every dimension |
| PreemptionQuotas.OverQuotaIsMonotone | pkg/capacityscheduling/capacity_scheduling.go:612-613 | with more pods back or more on top, the quota test fails whenever it failed with less |
| CapacityPreemption.PickCandidates | pkg/capacityscheduling/capacity_scheduling.go:538-590 | without a quota exactly the less important pods without one; beyond its min exactly the less important pods of the namespace; else only pods of other quotas, by the quotas as they are after the pods picked before; every pick leaves node and snapshot |
| CapacityPreemption.PickedAreCandidates | pkg/capacityscheduling/capacity_scheduling.go:535-590 | which branch applies and who is picked in it, by fields and sums: in the last one, pod by pod, exactly the pods of other quotas that are over min in some dimension without the pods picked before |
| CapacityPreemption.PassTakesOnePastMin | pkg/capacityscheduling/capacity_scheduling.go:562-575 | after the pass every other quota that lost pods would be over min with the last of them back |
| CapacityPreemption.ReprievePod | pkg/capacityscheduling/capacity_scheduling.go:629-652 | keeps the pod exactly when the preemptor fits and the quota test passes; fails exactly when the pod does not fit and the test fails without it |
| CapacityPreemption.StuckExactlyWhen | pkg/capacityscheduling/capacity_scheduling.go:635-649 | the loop fails if and only if the nominated pods alone are over quota and some candidate put back alone does not fit |
| CapacityPreemption.SelectVictimsOnNode | pkg/capacityscheduling/capacity_scheduling.go:485-674 | each outcome exactly in its case; the walk goes from the least important pod; the candidates are those of the row above; a selection is the greedy choice in trial order under the filters and the quota test, the final snapshot counts exactly the spared candidates, and every victim is a listed pod that its branch allows |
| CapacityPreemption.PreFilterSumsIncludeRequest | pkg/capacityscheduling/capacity_scheduling.go:263-269 | the recorded sums are at least the request in every dimension |
| CapacityPreemption.SelectionIsSound | pkg/capacityscheduling/capacity_scheduling.go:604-616 | victims are distinct, everybody else stays, the preemptor fits without them, and its request keeps its quota within max and all within their joint min |
| CapacityPreemption.SelectionIsOptimal | pkg/capacityscheduling/capacity_scheduling.go:625-667 | for filters whose fit survives removing pods: with any one victim back the filters or the quota test fail, and the spared pods are the lexicographically best that pass both |
| CapacityPreemption.OnlyOnePodPastMin | pkg/capacityscheduling/capacity_scheduling.go:562-575 | in the final state, with the last pod taken from another quota back, that quota is over its min |
| CapacityPreemption.ReportedNumber | pkg/capacityscheduling/capacity_scheduling.go:653-660 | the number reported falls short of the violating victims by those evicted for the quotas alone, and is right exactly when there are none |
| CapacityPreemption.QuotaEvictionsAreNotCounted | pkg/capacityscheduling/capacity_scheduling.go:643-651 | when the nominated pods alone are over quota and the loop does not fail, every candidate is evicted and none counted |
| CapacityPreemption.NumberIsRight | pkg/capacityscheduling/capacity_scheduling.go:643-660 | the number is right whenever the quotas hold with all candidates back |
| CapacityPreemption.NumberIsRightIff | pkg/capacityscheduling/capacity_scheduling.go:643-660 | with the nominated pods alone over quota, the number is zero and right exactly when no candidate violates a budget |
| CapacityFailures.SelectionCanFail | pkg/capacityscheduling/capacity_scheduling.go:635-649 | an input on which the selection fails although the preemptor fits and is within its quota |
| CapacityFailures.ViolatingVictimNotCounted | pkg/capacityscheduling/capacity_scheduling.go:653-660 | an input whose selection evicts one pod, which violates a budget, and reports none |
| CapacityFailures.StateIsOfPreFilter | pkg/capacityscheduling/capacity_scheduling.go:240-269 | the sums of both inputs are those PreFilter records for a preemptor of one CPU and a nominated pod of two |
| SySched.SySched.AddPod | pkg/sysched/sysched.go:305-333 | records the pod unless its name is taken on the node; the node's set stays the union over its pods, and other nodes are untouched |
| SySched.SySched.RemovePod | pkg/sysched/sysched.go:346-366 | removes the pod of that name and no other; the set stays the union over the rest |
| SySched.SySched.RecomputeHostSyscalls | pkg/sysched/sysched.go:335-344 | the union over the pods |
| SySched.UnionContains | pkg/sysched/sysched.go:335-344 | a call is in the union exactly when some recorded pod uses it |
| SySched.SwapRemovedLosesOne | pkg/sysched/sysched.go:53-60 | swap-remove loses exactly the one pod |
| SySched.SySched.Score | pkg/sysched/sysched.go:234-279 | the exposure recomputed from scratch: over the new and the recorded pods, the calls of the new union each lacks; the running average stays the mean of the scores |
| SySched.ExposureWithNew | pkg/sysched/sysched.go:261-271 | the two sums of the score are the exposure of the node with the new pod |
| SySched.ExposureIsSum | pkg/sysched/sysched.go:257-271 | the exposure is the sum, over the pods, of the number of calls of the union the pod does not use |
| SySched.MeanMoves | pkg/sysched/sysched.go:273-274 | the running update keeps the mean |
| Reservations.GetNodeUsage | pkg/rescheduler/rescheduler.go:401-460 | cpu and memory are the sums of the requests of exactly the running pods on the node, nothing for an unschedulable one |
| Reservations.ReservationManager.Reserve | pkg/rescheduler/rescheduler.go:903-914 | enters the pod over any reservation it had |
| Reservations.ReservationManager.Unreserve | pkg/rescheduler/rescheduler.go:917-926 | removes the pod's reservation and returns it, if there was one |
| Reservations.ReservationManager.GetTotalReservedResources | pkg/rescheduler/rescheduler.go:954-965 | the sums over the node's reservations, in whatever order |
| Reservations.ReservationManager.CleanupExpiredReservations | pkg/rescheduler/rescheduler.go:968-978 | exactly the expired reservations are gone |
| Reservations.ReserveOnNode | pkg/rescheduler/rescheduler.go:333-372 | reserves exactly when used, reserved and requested amounts together are within 95 percent of each positive capacity; else the pod has no reservation at all; nothing changes when switched off or when the node is unknown, which is an error |
| Reservations.PercentAtMost | pkg/rescheduler/rescheduler.go:158-172 | the percentage test is the integer comparison with 95 percent of the capacity |
| Reservations.OverloadedMeans | pkg/rescheduler/rescheduler.go:362-363 | overloaded is beyond 95 percent of some positive capacity |
| Reservations.ReservationsStayWithinShare | pkg/rescheduler/rescheduler.go:362-369 | in every run of reserves, repeated reserves, unreserves and cleanups, each node's reservations stay within 95 percent of each positive capacity |
| Reservations.ReservationIsLastReserve | pkg/rescheduler/rescheduler.go:333-398 | in every run a reservation in the table is that of the last reserve of its pod, which was accepted |
| Reservations.RetriedReserveForgets | pkg/rescheduler/rescheduler.go:354-369 | a pod reserved on an empty node and tried again on the loaded one ends without a reservation |
| BetaFit.BetaDistribution.ComputeMoments | pkg/trimaran/lowriskovercommitment/beta.go:59-68 | the moments are those of the shape parameters |
| BetaFit.MomentsMean | pkg/trimaran/lowriskovercommitment/beta.go:59-68 | the three moments as formulas of the shape parameters |
| BetaFit.BetaDistribution.MatchMoments | pkg/trimaran/lowriskovercommitment/beta.go:106-117 | succeeds exactly for a mean m in [0, 1] and a variance in [0, m(1 - m)), with positive shape parameters, whose moments are the ones asked for unless the shape is below the smallest one allowed |
| BetaFit.MomentsMatch | pkg/trimaran/lowriskovercommitment/beta.go:112-115 | the shape computed from mean and variance has exactly that mean and second moment |
| BetaFit.ClampRootMeans | pkg/trimaran/lowriskovercommitment/lowriskovercommitment.go:221 | the clamp is the root of 99 percent of the largest variance with the mean |
| BetaFit.ClampMakesFeasible | pkg/trimaran/lowriskovercommitment/lowriskovercommitment.go:220-221 | a clamped deviation that is not zero always gives feasible moments |
| BetaFit.ComputeProbability | pkg/trimaran/lowriskovercommitment/beta.go:172-191 | the degenerate cases, and otherwise a fit exactly for feasible moments |
| BetaFit.FitLoad | pkg/trimaran/lowriskovercommitment/lowriskovercommitment.go:216-226 | whenever a fit is attempted it succeeds, with the mean and second moment asked for |
| NetworkCosts.LessTotal | pkg/networkaware/util/util.go:88-105 | names are totally ordered |
| NetworkCosts.SortByName | pkg/networkaware/networkoverhead/networkoverhead.go:438-445 | a sorted permutation, for topology keys as for origins |
| NetworkCosts.FindByName | pkg/networkaware/util/util.go:155-191 | bisection finds the list of that name, and nothing only if there is none |
| NetworkCosts.FoundIsScanned | pkg/networkaware/util/util.go:155-191 | with unique names, the list found in any permutation is the one a scan of the original finds |
| NetworkCosts.CostsOf | pkg/networkaware/networkoverhead/networkoverhead.go:459-468 | with unique names, the costs found by sorting and bisecting are those a scan of the unsorted lists finds |
| NetworkCosts.BuildCostMap | pkg/networkaware/networkoverhead/networkoverhead.go:438-497 | with unique names, the map is the one a scan of the given lists builds |
| NetworkCosts.EnteredIsListed | pkg/networkaware/networkoverhead/networkoverhead.go:470-491 | the cost entered for a destination is the one listed for it last |
| NetworkCosts.NotEntered | pkg/networkaware/networkoverhead/networkoverhead.go:470-491 | nothing is entered for other origins or destinations |
| NetworkCosts.ScannedZoneCost | pkg/networkaware/networkoverhead/networkoverhead.go:448-497 | the map holds the cost the zone lists last, in the last weight of the name |
| NetworkCosts.ScannedRegionCost | pkg/networkaware/networkoverhead/networkoverhead.go:448-497 | and the cost the region lists last, when the region is not named like the zone |
| NetworkCosts.ZoneOverridesRegion | pkg/networkaware/networkoverhead/networkoverhead.go:477-495 | for a destination the zone lists, the region's costs make no difference |

## Left out

- ResyncRuns.MatchSettlesIff: has as premises that equal fingerprints mean equal pods, that every placed pod is listed (a placed pod whose phase is still Pending is not), that no pod name is used again and that no foreign pod took anything; the fingerprint method that covers only pods with exclusive resources is not modelled.
- ResyncRuns.TestedCoursesNeverOverstate: is about a test that Resync does not make; what Resync does is in the courses without it.
- QuotaSafety.PreFilter: takes one state of the live quotas for the whole loop over nominated pods, though the loop holds no lock.
- OverReserveRuns.FreshCopyNeverOverstates: identifies zones by their position in the list, so an agent that lists the zones of a node in another order later is not covered.
- The attribute watcher, the filtering of listed pods by phase, and the lookup of the fingerprint method.
- Effective requests: how a pod's containers, init containers and overhead add up is outside the model; requests are given per pod, or per container where the code works on containers.
- NumaNodes.CreateNUMANodeList: a zone's id is given parsed; the index error for the id 64 and the choice among costs of several zones with one id are not modelled.
- LeastNuma.LeastNUMAContainerScopeScore: requires zones listed at their own ids, because the code indexes the list with ids; the pod-scope score, a single call of the search, is not modelled.
- LeastNuma.NodesAvgDistance: means are real numbers, not 32-bit floats.
- ElasticQuotas.ElasticQuotaInfos.UpdateElasticQuota: the new object copies the pods and the use of the old one instead of sharing them; the old one is unreachable, since a quota keeps its namespace.
- Quotas without min or max objects: the constructor always sets both, so the branches for absent ones are not modelled.
- Eligibility of a pod to preempt others, the choice among candidate nodes, and the sampling of nodes.
- CapacityPreemption.SelectVictimsOnNode: iterates over the pods as they are listed when the pass starts; the swap-removals of the node's own list while it is walked are not modelled.
- SySched.SySched.AddPod: like the code, identifies pods of a node by name alone, so pods of one name in two namespaces count as one.
- The rescheduler's filter, score and controller, and its configuration parsing.
- BetaFit.BetaDistribution.ComputeMoments: requires positive shape parameters, with which the code divides.
- BetaFit.BetaDistribution.MatchMoments: the variance zero, a division by zero that its caller excludes, is excluded here; the distribution and density functions are not modelled.
- The other parts of the risk and the final weighting in computeRisk.
- NetworkCosts.BuildCostMap: requires unique names in each list, because which of two equal names is found depends on the sort; covers user-defined weights, whose lists are sorted first; that sorting also reorders the lists inside the shared object is not modelled.
- Counting satisfied and violated network dependencies, normalizing scores, pod groups, load packing and the other trimaran plugins: easy members only.
