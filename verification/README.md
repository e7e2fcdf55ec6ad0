# Crane scheduler: a verified model

This project models the stateful parts of the Crane scheduler plugins and controller in Dafny and proves what
they guarantee. `dafny verify dfyconfig.toml` checks all of it.

**NUMA allocation** (`Topology`, `PodRequests`, `Allocator`, `NodeWrappers`, `Assignment`, `TopologyMatch`,
`AssumedCache`, `Protocol*`). The topology plugin rebuilds each zone's usage from pod annotations or from a cache
of assumed results, then either picks one zone that holds a whole pod or splits the pod's cores over zones. Zones,
requests, the cycle state and the cache are objects that are updated in place, as in the plugin; `Allocator`
describes the outcome on values, and the methods are proved against it. The theorems: single-zone mode is complete
and best-fit; the multi-zone split is exact, conserves the request, and uses the least possible number of zones
whatever the unstable sort does with ties. `Protocol` makes PreFilter, Filter, Reserve, PreBind, Unreserve, pod
removal, the clock and the cache cleanup the steps of a transition system, and `ProtocolSafety` proves that no
timely run ever over-commits a zone. `ProtocolExact` drops the timing assumptions and says exactly which runs are
safe, `ProtocolUsage` exactly when Filter sees the usage that is promised. `ProtocolLimits` gives two runs that
over-commit, and `ProtocolCoincidence` one in which two old annotations make up for each other. `ProtocolOptimality`
carries the fewest-zones theorem to every Filter of a timely run.

**Binding records** (`Bindings`, `BindingRuns`, `BindingRecords`). A bounded heap with expiry, sifted in place,
refines a bounded multiset. Over any run a count is the count over everything ever added, or the heap is saturated;
collection cannot be observed by any window it covers; under the scheduler's own clock the heap is a sliding window.

**Predicted load** (`Decimals`, `DecimalMeaning`, `Ledger`, `LedgerMeaning`, `Annotations`, `PodController`,
`Admission`, `AdmissionSafety`). A node annotation is an account in text form. Printing and parsing are modelled digit
by digit and tied to the decimals that the texts spell by place value, and the controller's runs are proved to leave
exactly the sum of scheduled profiles minus deleted ones in the account since the last nightly reset. Admission is
exact, and keeps measured usage plus the account within the limit over whole runs.

**Load score** (`LoadScore`). The node score is a weighted mean, bounded and monotone, and the hot value follows the
binding records.

Quantities are integers in billionths, metric values are integers in units of the fifth decimal (the precision of
the annotations), scores are real numbers truncated toward zero, and the clock is a parameter.

Where the code and its own comments differ, the model follows the code:

- The empty-result branch of Reserve is marked as one that should never happen
  (`pkg/plugins/noderesourcetopology/reserver.go:25-28`). `SplitTheorems.AcceptedWithNothing` gives a node on which it
  does, and `SplitTheorems.EmptyExactlyWhenNoCoreIsFree` says when.
- A recorded memory amount carries the CPU number (`pkg/plugins/noderesourcetopology/helper.go:339-341`), so memory
  does not survive the annotation in general. `Topology.RecordedReadsBack` says when it does.
- The cache is said to be keyed by namespace and name (`pkg/plugins/noderesourcetopology/cache.go:93`); the key is the
  UID.
- The scheduler plugin collects its bindings after a fixed five minutes
  (`pkg/plugins/dynamic/plugins.go:156`) while hot values may ask for longer windows.
  `LoadScore.PluginCollectionLosesLongWindows` gives the exact bound.

## Model

| member | source | states |
|---|---|---|
| Topology.UsageIsSum | pkg/plugins/noderesourcetopology/helper.go:120-171 | the requested CPU of a reconstructed zone is the sum, over the pods, of what each one's annotation or else its assumed entry records for that zone; every pod counts once |
| Topology.UsageIsSumOfEach | pkg/plugins/noderesourcetopology/helper.go:120-171 | the same for every resource: CPU in thousandths rounded up, memory, storage and each scalar in whole units |
| Topology.AllocatableIsStated | pkg/plugins/noderesourcetopology/helper.go:108-118 | for every resource, a zone has what it states as allocatable, whatever its capacity, and nothing without resources |
| Topology.RoundingIsAwayFromZero | pkg/plugins/noderesourcetopology/helper.go:62-72 | both unit conversions round up to the next unit, mirrored for negative quantities |
| Topology.NumaZonesOfBoth | pkg/plugins/noderesourcetopology/helper.go:89-98 | keeping the entries of node type distributes over concatenation, so it keeps them in order |
| Topology.UsageIgnoresOrder | pkg/plugins/noderesourcetopology/filter.go:88-97 | any permutation of the node's pods reconstructs the same CPU usage in every zone |
| Topology.RecordedReadsBack | pkg/plugins/noderesourcetopology/helper.go:331-358 | a recorded amount of CPU, storage or a scalar reads back unchanged, and memory exactly when it is zero or equals the CPU number |
| PodRequests.GetPodTargetContainerIndices | pkg/plugins/noderesourcetopology/helper.go:38-49 | the indices are, in order, exactly the containers with whole guaranteed CPUs, and none under the policy none |
| PodRequests.ComputeContainerSpecifiedResourceRequest | pkg/plugins/noderesourcetopology/helper.go:214-228 | the loop adds up the named resources of the target containers, as the function the request lemmas are about |
| PodRequests.RequestIsSum | pkg/plugins/noderesourcetopology/helper.go:214-228 | for every resource, the request is the sum over the target containers if the resource is aware, and nothing otherwise |
| PodRequests.WhenCPUsAreGuaranteed | pkg/plugins/noderesourcetopology/helper.go:61-73 | a container is guaranteed n CPUs if and only if its request equals its limit and is n CPUs up to the rounding to thousandths |
| PodRequests.RequestIsGuaranteed | pkg/plugins/noderesourcetopology/helper.go:61-73 | the requested milli-CPU is 1000 times the CPUs guaranteed to the targets, at least one each |
| PodRequests.RequestsAreWholeCores | pkg/plugins/noderesourcetopology/helper.go:38-73 | with CPU aware, every pod requests a multiple of 1000 milli-CPU and at least 1000 per target container |
| PodRequests.RequestsAreCpuOnly | pkg/plugins/noderesourcetopology/helper.go:214-228 | with CPU as the only aware resource, the request holds nothing else |
| Greedy.TakeIsExact | pkg/plugins/noderesourcetopology/helper.go:297-302 | serving from left to right stays within what is free and hands out min(request, total) |
| Greedy.LargestFirst | pkg/plugins/noderesourcetopology/helper.go:174-178 | exchange argument: no choice of m positions of a non-increasing row holds more than the first m |
| Greedy.GreedyUsesFewest | pkg/plugins/noderesourcetopology/helper.go:193-208 | no plan that hands out as much uses fewer positions than the greedy one |
| AllocatorTheorems.CoresFollowFree | pkg/plugins/noderesourcetopology/helper.go:194 | with whole cores charged, flooring the allocatable CPU equals flooring the free CPU, so the sort order survives it |
| AllocatorTheorems.FittingZonesFit | pkg/plugins/noderesourcetopology/filter.go:107-123 | the kept zones are exactly the zones with room for every requested resource |
| AllocatorTheorems.FitsMeansRoom | pkg/plugins/noderesourcetopology/helper.go:230-282 | a zone fits if and only if nothing is asked or, for each native and each requested scalar resource, the asked amount is free |
| AllocatorTheorems.SingleZoneHasStatedRoom | pkg/plugins/noderesourcetopology/helper.go:173-191 | single-zone mode places the pod in a zone whose stated allocatable amounts hold, for every resource, what all pods record there plus the request |
| AllocatorTheorems.SingleZoneIsBestFit | pkg/plugins/noderesourcetopology/helper.go:173-191 | single-zone mode refuses exactly when no zone fits, and otherwise records the full CPU request in one fitting zone of maximal free CPU |
| AllocatorTheorems.SplitCpu | pkg/plugins/noderesourcetopology/helper.go:193-208 | the CPU recorded for the i-th zone of the walk is its greedy share of the whole free cores, whatever else is requested |
| AllocatorTheorems.SplitIsGreedy | pkg/plugins/noderesourcetopology/helper.go:193-208 | a CPU-only split is entry by entry the greedy split |
| AllocatorTheorems.AcceptedFits | pkg/plugins/noderesourcetopology/helper.go:173-212 | in both modes an accepted result charges every zone a whole number of cores that it still has |
| AllocatorTheorems.AcceptedNamesZones | pkg/plugins/noderesourcetopology/helper.go:173-212 | an accepted result charges nothing to a name that is no zone of the node |
| AllocatorTheorems.AcceptedReadsBack | pkg/plugins/noderesourcetopology/helper.go:89-98 | every entry of an accepted result is a NUMA zone, so the annotation reads back whole |
| SplitTheorems.SplitIsExact | pkg/plugins/noderesourcetopology/helper.go:193-211 | the total is min(request, whole free cores), each amount is positive, whole and within its zone, and names are distinct and sorted |
| SplitTheorems.SplitConserves | pkg/plugins/noderesourcetopology/helper.go:284-328 | handed-out CPU plus the remainder is the requested CPU, and the remainder is never negative |
| SplitTheorems.EmptyExactlyWhenNoCoreIsFree | pkg/plugins/noderesourcetopology/reserver.go:25-28 | for a real request the result is empty if and only if no zone has a whole free core |
| SplitTheorems.AcceptedWithNothing | pkg/plugins/noderesourcetopology/filter.go:73-86 | a node with 900 free milli-CPU passes Filter with an empty result, whatever the request |
| SplitTheorems.FewestZones | pkg/plugins/noderesourcetopology/helper.go:173-212 | no feasible plan that hands out as many cores uses fewer zones than the result |
| SplitTheorems.ResultIsPlan | pkg/plugins/noderesourcetopology/helper.go:173-212 | the result is itself a feasible plan |
| SplitTheorems.ResultIsMinimal | pkg/plugins/noderesourcetopology/scorer.go:28 | when the free cores suffice, the number of entries that the score divides by is the least number of zones that can hold the request |
| SplitTheorems.TiesDoNotMatter | pkg/plugins/noderesourcetopology/helper.go:175-178 | any two orders the unstable sort may leave give the same amounts one after the other, and as many entries |
| AssumedCache.PodTopologyCache.constructor | pkg/plugins/noderesourcetopology/cache.go:41-50 | a new cache stands for the empty map and the empty history |
| AssumedCache.PodTopologyCache.AssumePod | pkg/plugins/noderesourcetopology/cache.go:53-69 | fails without change on a missing UID and on a live key, else adds the zones with deadline now + ttl; the two maps keep one key set and stay what their history makes of them |
| AssumedCache.PodTopologyCache.ForgetPod | pkg/plugins/noderesourcetopology/cache.go:72-83 | removes the pod's entry from the one map the cache stands for, if it has a UID |
| AssumedCache.PodTopologyCache.RemovePod | pkg/plugins/noderesourcetopology/cache.go:131-135 | both maps lose the key together |
| AssumedCache.PodTopologyCache.PodCount | pkg/plugins/noderesourcetopology/cache.go:86-91 | counts the entries of the one map |
| AssumedCache.PodTopologyCache.GetPodTopology | pkg/plugins/noderesourcetopology/cache.go:94-109 | finds the pod exactly while some successful assume of it is neither forgotten nor cleaned up, with that assume's zones |
| AssumedCache.PodTopologyCache.CleanupAssumedPods | pkg/plugins/noderesourcetopology/cache.go:120-129 | keeps exactly the entries whose deadline has not passed, unchanged, as one step of the history |
| AssumedCache.PodTopologyCache.RemoveExpired | pkg/plugins/noderesourcetopology/cache.go:124-128 | the loop over the deadlines leaves exactly the unexpired entries in both maps |
| AssumedCache.CacheRemembersExactly | pkg/plugins/noderesourcetopology/cache.go:53-135 | over any history, which every method of the cache extends and keeps true to its maps, a pod is cached exactly when a successful assume was neither forgotten nor outlived by a cleanup, and with that assume's zones and deadline |
| NodeWrappers.PodRequest.Clone | pkg/plugins/noderesourcetopology/filter.go:79 | the copy is a fresh object of the same amount |
| NodeWrappers.NumaNode.constructor | pkg/plugins/noderesourcetopology/helper.go:108-118 | a zone starts with nothing requested and, for CPU, memory, storage and each scalar, the amount it states as allocatable |
| NodeWrappers.NumaNode.AddResource | pkg/plugins/noderesourcetopology/helper.go:120-125 | adds a recorded amount to the zone's requested amount and touches nothing else |
| NodeWrappers.GetPodNUMANodeResult | pkg/plugins/noderesourcetopology/helper.go:89-98 | the entries of node type, in order |
| NodeWrappers.NodeWrapper.constructor | pkg/plugins/noderesourcetopology/helper.go:137-148 | one distinct fresh object per zone, in order, with no usage and no result |
| NodeWrappers.NodeWrapper.AddNUMAResources | pkg/plugins/noderesourcetopology/helper.go:162-171 | every zone gains exactly the entries of its own name, and no allocatable amount changes |
| NodeWrappers.NodeWrapper.AddPod | pkg/plugins/noderesourcetopology/helper.go:150-160 | every zone gains what the pod's annotation records; without node entries there, what its assumed entry records; without either, nothing |
| NodeWrappers.NodeWrapper.SortByFreeCPU | pkg/plugins/noderesourcetopology/helper.go:174-178 | the same zones in some order of non-increasing free CPU, none of them changed |
| Assignment.FitsRequestForNUMANode | pkg/plugins/noderesourcetopology/helper.go:230-282 | lists every resource the zone is short of with its numbers and nothing else; the list is empty exactly when the request fits |
| Assignment.FilterNUMANodeResource | pkg/plugins/noderesourcetopology/filter.go:107-123 | keeps exactly the fitting zones, or fails and leaves the wrapper as it was |
| Assignment.AssignRequestForNUMANode | pkg/plugins/noderesourcetopology/helper.go:284-329 | for CPU, memory and storage: what is given and what is left make up what was asked, and either all that was free is given or nothing is left; finished says that nothing is left |
| Assignment.NameOrderIsLexicographic | pkg/plugins/noderesourcetopology/helper.go:209-211 | the name order is that of strings: a prefix comes first, and otherwise the first difference decides |
| Assignment.SortResultByName | pkg/plugins/noderesourcetopology/helper.go:209-211 | the same entries in name order |
| Assignment.WalkComputesSplit | pkg/plugins/noderesourcetopology/helper.go:193-208 | the loop with early exit computes the recursive split, its remainder and how many zones it reaches |
| Assignment.ServeFrom | pkg/plugins/noderesourcetopology/helper.go:193-204 | one turn of the loop floors this zone only and is one step of the walk |
| Assignment.AssignInOrder | pkg/plugins/noderesourcetopology/helper.go:193-208 | the loop appends the split to the result, leaves the remainder in the request and floors exactly the zones it reached |
| Assignment.AssignTopologyResult | pkg/plugins/noderesourcetopology/helper.go:173-212 | for some sorted order of the zones: the whole request on the first zone when aware, else the split sorted by name, with the request consumed |
| TopologyMatching.TopologyMatch.PreFilter | pkg/plugins/noderesourcetopology/filter.go:20-37 | a fresh state with the pod's target containers, its request and no results |
| TopologyMatching.TopologyMatch.InitializeNodeWrapper | pkg/plugins/noderesourcetopology/filter.go:88-105 | a fresh wrapper that shows the usage reconstructed from all pods of the node; aware if the pod says so, or says nothing and the node is |
| TopologyMatching.TopologyMatch.FilterManaged | pkg/plugins/noderesourcetopology/filter.go:73-85 | refuses or records a fresh accepted result for this node only, and the cycle's request survives because the clone is consumed |
| TopologyMatching.TopologyMatch.Filter | pkg/plugins/noderesourcetopology/filter.go:45-86 | every early exit and its status, otherwise the answer for the reconstructed zones; other nodes' results stay, and an early exit records nothing |
| TopologyMatching.TopologyMatch.Reserve | pkg/plugins/noderesourcetopology/reserver.go:11-35 | assumes the recorded result under the pod's UID, or fails on an empty result, a missing UID or a live entry with the cache unchanged |
| TopologyMatching.TopologyMatch.Unreserve | pkg/plugins/noderesourcetopology/reserver.go:39-51 | forgets the pod's entry exactly where Filter had recorded a result |
| ProtocolSafety.ViewsAreSound | pkg/plugins/noderesourcetopology/filter.go:88-105 | under the invariant, the zones Filter reconstructs are sound and their free CPU is the CPU stated as allocatable minus all charges |
| ProtocolSafety.FilteredFits | pkg/plugins/noderesourcetopology/filter.go:73-86 | under the invariant, any result Filter records fits next to everything charged on the node |
| ProtocolSafety.ReserveKeepsInv | pkg/plugins/noderesourcetopology/reserver.go:25-34 | reserving keeps the invariant on the chosen node and on every other |
| ProtocolSafety.PreBindKeepsInv | pkg/plugins/noderesourcetopology/binder.go:31-62 | moving a result from the cache to the annotation charges no zone more |
| ProtocolSafety.UnreserveKeepsInv | pkg/plugins/noderesourcetopology/reserver.go:39-51 | giving up a reservation keeps the invariant, whoever's it is |
| ProtocolSafety.RemoveKeepsInv | pkg/plugins/noderesourcetopology/filter.go:95-97 | a pod leaving its node keeps the invariant |
| ProtocolSafety.CleanupKeepsInv | pkg/plugins/noderesourcetopology/cache.go:115-129 | a cleanup keeps the invariant if and only if every running binding cycle's entry is still alive |
| ProtocolSafety.EventKeepsInv | pkg/plugins/noderesourcetopology/filter.go:20-105 | every timely event keeps the invariant |
| ProtocolSafety.NoZoneIsOvercommitted | pkg/plugins/noderesourcetopology/helper.go:150-212 | in every state that a timely run reaches, each zone is charged a whole number of cores, at most the CPU it states as allocatable |
| AllocatorTheorems.AcceptedIsWhole | pkg/plugins/noderesourcetopology/helper.go:173-212 | even on zones that are over-committed, an accepted result charges every name a whole, non-negative number of cores |
| ProtocolExact.FilteredIsProper | pkg/plugins/noderesourcetopology/filter.go:73-86 | any result Filter records in any reached state, over-committed or not, charges whole cores and reads back whole |
| ProtocolExact.RunKeepsTracked | pkg/plugins/noderesourcetopology/helper.go:150-160 | in every state of a run of released pods, late cleanups and old annotations included, what an unannotated pod shows is its own running binding cycle's result |
| ProtocolExact.WhenReserveChargesTheResult | pkg/plugins/noderesourcetopology/reserver.go:25-34 | Reserve charges the node with the result if and only if the pod has no old annotation, or one of the same CPU |
| ProtocolExact.WhenReserveIsSafe | pkg/plugins/noderesourcetopology/reserver.go:25-34 | Reserve keeps every zone within bounds if and only if the node has room for the zones the pod will show |
| ProtocolExact.WhenPlaceIsSafe | pkg/plugins/noderesourcetopology/reserver.go:21-24 | placing a pod without a result keeps every zone within bounds if and only if its old annotation has room |
| ProtocolExact.WhenPreBindIsSafe | pkg/plugins/noderesourcetopology/binder.go:31-62 | annotating a pod keeps every zone within bounds if and only if its result fits next to what the other pods show |
| ProtocolExact.WhenEventIsSafe | pkg/plugins/noderesourcetopology/filter.go:20-105 | from a safe state any event is safe if and only if what it makes visible fits; the other events always are |
| ProtocolExact.WhenRunIsSafe | pkg/plugins/noderesourcetopology/helper.go:150-212 | over every run, retries with old annotations and late cleanups included, no state over-commits a zone if and only if each Reserve, Place and PreBind finds that room |
| ProtocolExact.TimelyRunsFit | pkg/plugins/noderesourcetopology/cache.go:120-129 | in a timely run every Reserve, Place and PreBind finds that room |
| ProtocolUsage.WhenRunSeesTrueUsage | pkg/plugins/noderesourcetopology/helper.go:150-160 | at the end of any run every pod shows what it is promised if and only if none is hidden (a running binding cycle without its entry) or masked (one behind an old annotation), and then the sums are true; with no pod masked, the sums are true only then |
| ProtocolUsage.UsageBalances | pkg/plugins/noderesourcetopology/helper.go:150-171 | what Filter sees of a zone plus what it misses is what is promised plus what old annotations leave over |
| ProtocolCoincidence.LeftoversCanCancel | pkg/plugins/noderesourcetopology/helper.go:150-171 | a run from the start whose node ends with every sum true although both its pods are masked, so the sums alone do not tell |
| ProtocolUsage.TimelyRunSeesTrueUsage | pkg/plugins/noderesourcetopology/helper.go:150-160 | in a timely run Filter sees exactly the promised usage of every zone |
| ProtocolOptimality.TimelySplitsAreOptimal | pkg/plugins/noderesourcetopology/helper.go:193-211 | with CPU as the only aware resource, every multi-zone Filter of a timely run hands out min(request, whole free cores) over the fewest zones, and the least number that can hold the request if the cores suffice |
| ProtocolLimits.LateBindingOvercommits | pkg/plugins/noderesourcetopology/cache.go:120-129 | a run from an empty node, untimely only in its cleanup, that over-commits a zone |
| ProtocolLimits.LeftoverAnnotationOvercommits | pkg/plugins/noderesourcetopology/helper.go:150-158 | a run, untimely only in that a pod starts with an old annotation, that over-commits a zone and ends with that pod masked |
| Bindings.RunIsExactOrFull | pkg/controller/annotator/binding.go:69-123 | over any run and any line collection has not passed, the heap holds everything newer, or at least size - 1 such bindings |
| Bindings.CountIsExactOrSaturated | pkg/controller/annotator/binding.go:81-97 | for any arrival order, the count since the line that lies the whole seconds of a range within the collection range back is the count over the whole history, or the heap is saturated |
| Bindings.WhenLineIsBack | pkg/controller/annotator/binding.go:85-110 | the time line of a duration is the one that lies its whole seconds back, a negative duration mirrored |
| BindingRuns.CollectionIsUnobservable | pkg/controller/annotator/binding.go:100-123 | the same operations with and without collection leave the same timestamps above every line collection has not passed |
| BindingRuns.CountsIgnoreCollection | pkg/controller/annotator/node.go:126-134 | when timestamps tell nodes apart, collection changes no count within its range |
| BindingRuns.SlidingWindow | pkg/controller/annotator/binding.go:69-78 | stamped by one clock, the heap holds exactly the timestamps of the last size adds that no collection reached |
| BindingRuns.WhenAddKeepsNewest | pkg/controller/annotator/binding.go:73-77 | an add keeps the newest bindings if and only if there was room or the new one is not older than all the others |
| BindingRuns.LateArrivalDisplacesNewer | pkg/controller/annotator/binding.go:73-77 | a run in which a late, older binding displaces a newer one |
| BindingRecordKeeping.RootIsOldest | pkg/controller/annotator/binding.go:28-30 | heap order puts an oldest binding at the root |
| BindingRecordKeeping.BindingHeap.Up | pkg/controller/annotator/binding.go:77 | the sift that ends heap.Push restores heap order over the same bindings |
| BindingRecordKeeping.BindingHeap.Down | pkg/controller/annotator/binding.go:74 | the sift of heap.Pop restores heap order among the first n and leaves the rest in place |
| BindingRecordKeeping.BindingHeap.HeapPush | pkg/controller/annotator/binding.go:77 | heap order holds again and exactly the new binding is added |
| BindingRecordKeeping.BindingHeap.HeapPop | pkg/controller/annotator/binding.go:74 | heap order holds again and exactly one binding of minimal timestamp has left |
| BindingRecordKeeping.BindingRecords.constructor | pkg/controller/annotator/binding.go:58-66 | an empty heap and an empty history |
| BindingRecordKeeping.BindingRecords.AddBinding | pkg/controller/annotator/binding.go:69-78 | a full heap gives up one oldest binding before it takes the new one; order, bound and history are kept |
| BindingRecordKeeping.BindingRecords.PopExpired | pkg/controller/annotator/binding.go:110-122 | the loop ends with exactly the bindings newer than the line |
| BindingRecordKeeping.BindingRecords.BindingsGC | pkg/controller/annotator/binding.go:100-123 | exactly the bindings newer than the line that lies the whole seconds of the range back remain; range 0 collects nothing |
| BindingRecordKeeping.BindingRecords.GetLastNodeBindingCount | pkg/controller/annotator/binding.go:81-97 | the number of places in the heap that hold a binding of the node newer than the line that lies the whole seconds of the range back, which is the count over all history unless the heap is saturated |
| Decimals.NumberRoundTrip | pkg/utils/utils.go:248-250 | the five-decimal form of every signed number parses back to it |
| Decimals.SplitJoin | pkg/utils/utils.go:203 | splitting undoes joining when no part holds the separator |
| Decimals.ParseRangeMetricsByString | pkg/utils/utils.go:201-213 | the loop parses all numbers of a row or fails, as the function the round trips are about |
| Decimals.RangeRoundTrip | pkg/utils/utils.go:201-264 | every non-empty printed row parses back to itself |
| Decimals.RangeHasNoComma | pkg/utils/utils.go:244-264 | no printed row holds the comma that separates value and time |
| Decimals.AnnotationRoundTrip | pkg/utils/utils.go:286 | a printed row survives the value-comma-time form |
| DecimalMeaning.WhenDenotes | pkg/utils/utils.go:201-213 | a text reads as a value if and only if its digits, point and sign spell that value by place, at most five places after the point |
| DecimalMeaning.FormatSpells | pkg/utils/utils.go:248-250 | a printed value has exactly five places, a minus sign only if negative, and spells the value |
| DecimalMeaning.WhenRowDenotes | pkg/utils/utils.go:201-213 | a row reads as values if and only if its parts spell them one by one |
| Ledger.MergeUsageRange | pkg/utils/utils.go:215-265 | the loops and every error case agree with the function the account lemmas are about |
| Ledger.PrintMoved | pkg/utils/utils.go:243-263 | both printing loops produce the printed form of the row moved slot by slot |
| Ledger.MergeMovesAccount | pkg/utils/utils.go:215-265 | a profile of the account's length moves every slot by the profile, and the absent account acts as zero |
| Ledger.WhenMergeKeepsBalance | pkg/utils/utils.go:231-241 | for any two lengths, a merge keeps the balance if and only if they agree, or the account is shorter and holds nothing |
| Ledger.LedgerIsSum | pkg/utils/utils.go:215-265 | after any entries the account decodes to its start plus the adds minus the subtracts, slot by slot |
| Ledger.LedgerIgnoresOrder | pkg/utils/utils.go:215-265 | any order of the entries decodes to the same row |
| Ledger.SubtractUndoesAdd | pkg/utils/utils.go:243-263 | a subtract after an add of the same profile, or the other way round, restores the decoded row |
| LedgerMeaning.MergeAddsDecimals | pkg/utils/utils.go:215-265 | a merge of two texts writes a text whose decimals are the sums or differences of the decimals the two spell, slot by slot |
| LedgerMeaning.LedgerIsDecimalSum | pkg/utils/utils.go:215-265 | after any entries the text on the node spells its start plus the added decimals minus the subtracted ones, slot by slot |
| LedgerMeaning.WhenMergeFails | pkg/utils/utils.go:216-233 | a merge fails if and only if a text it needs does not read or the account is longer than the profile |
| Annotations.PatchReadsBack | pkg/utils/utils.go:141-199 | a patched value is read back as a delta always, and as a usage exactly while its stamp is long enough, readable and younger than the duration; other keys read as before |
| Annotations.UsageReadsBack | pkg/utils/utils.go:114-139 | a measured usage is read back exactly when it is not negative and its stamp is long enough, readable and younger than the duration |
| Annotations.MissingAndMalformed | pkg/utils/utils.go:114-199 | a missing annotation is no value to the range readers and an error to the usage reader, and one without exactly one comma is an error to all three |
| Annotations.ActiveDurationIsOfTheFirst | pkg/utils/utils.go:176-186 | the first policy of the name with a period gives that period and five minutes more; without one there is none |
| PodController.ClusterNode.Reconcile | pkg/controller/annotator/pod.go:107-146 | the loop over the policies, all reading the node as first seen, leaves the annotations the run lemmas are about; without a deployment nothing changes |
| PodController.ClusterNode.SyncNode | pkg/controller/annotator/node.go:225-246 | afterwards exactly the annotations whose key does not start with delta_ are left, unchanged |
| PodController.ReconcileMakesEntry | pkg/controller/annotator/pod.go:112-145 | a reconcile makes one entry in each account its fresh profiles name, even if policies share a name, none where the deployment has no profile, and leaves the other accounts as they were |
| PodController.ReconcileWritesOnlyAccounts | pkg/controller/annotator/pod.go:121-140 | every other annotation stays as it was |
| PodController.AccountReplaysEntries | pkg/controller/annotator/pod.go:107-146 | over any run of pod events, resets and measurements the account is what the entries since the last reset make of it |
| PodController.AccountIsBalance | pkg/controller/annotator/pod.go:107-146 | with profiles of one length, and any number of pods without one, the account decodes to the scheduled profiles minus the deleted ones since the last reset |
| Admission.PredictingOverLoad | pkg/plugins/applicationresourceaware/stats.go:18-73 | true exactly when the limit is set, all rows parse and some slot exceeds it; rows of another length are left out, and a zero capacity divides as floating point does |
| Admission.AnySlotOver | pkg/plugins/applicationresourceaware/stats.go:47-72 | the loop with its two validity flags finds a slot over the limit exactly when there is one |
| Admission.PolicyBlocks | pkg/plugins/applicationresourceaware/filter.go:34-79 | one policy blocks exactly when its name splits in four, both periods are set, all three annotations are readable and fresh, and a slot exceeds the limit of the node's CPU for cpu, of its memory for memory, of nothing otherwise |
| Admission.Filter | pkg/plugins/applicationresourceaware/filter.go:33-84 | the pod passes exactly when no policy blocks it |
| AdmissionSafety.AdmissionIsExact | pkg/plugins/applicationresourceaware/stats.go:58-72 | a pod passes if and only if measured usage plus the account with the pod added is within the limit in every slot |
| AdmissionSafety.AdmissionOfDecimals | pkg/plugins/applicationresourceaware/stats.go:58-72 | on the decimals the three texts spell: a pod passes if and only if no slot's usage of the capacity plus account plus profile is over the limit |
| AdmissionSafety.NoCapacity | pkg/plugins/applicationresourceaware/stats.go:58-72 | without capacity a pod is turned away if and only if some slot promises more than nothing |
| AdmissionSafety.MismatchedAccountIsIgnored | pkg/plugins/applicationresourceaware/stats.go:52-55 | an account of another length has no say: the profile alone decides, in both directions |
| AdmissionSafety.MismatchedProfileIsIgnored | pkg/plugins/applicationresourceaware/stats.go:47-51 | a profile of another length has no say: the account alone decides, in both directions |
| AdmissionSafety.FilterCheckedTheOffer | pkg/plugins/applicationresourceaware/filter.go:40-76 | the profile the filter let pass is the one the controller then adds |
| AdmissionSafety.PodChangeStep | pkg/controller/annotator/pod.go:107-146 | an admission makes room even where there was none, and a deletion keeps it |
| AdmissionSafety.NodeKeepsRoom | pkg/plugins/applicationresourceaware/filter.go:15-85 | over every guarded run, measured usage of the node's own CPU or memory plus the account is within the limit in every slot, from the first admission on, or from the start if there was room |
| LoadScore.GetNodeScore | pkg/plugins/dynamic/stats.go:58-82 | for positive weights 100 times the mean of the free usages, each policy entering by its weight, truncated toward zero; without policies 0, and with weights that sum to zero whatever the platform makes of a number that is not finite |
| LoadScore.ScoreIgnoresOrder | pkg/plugins/dynamic/stats.go:66-79 | any order of the policies gives the same score |
| LoadScore.TwoPolicies | pkg/plugins/dynamic/stats.go:66-79 | two policies of any weights score the mean of their two free usages under those weights |
| LoadScore.MeanOfTwo | pkg/plugins/dynamic/stats.go:66-79 | the weighted mean of two, written out in their weights and values |
| LoadScore.UsageIsTheDecimal | pkg/plugins/dynamic/stats.go:22-36 | a fresh usage counts as the decimal its text spells, and one that is not fresh as 1 |
| LoadScore.ScoreOfOne | pkg/plugins/dynamic/stats.go:22-36 | a policy that cannot be scored adds exactly what a usage of 1 adds |
| LoadScore.ScoreFollowsUsage | pkg/plugins/dynamic/stats.go:58-82 | lower usages never lower the score, and equal usages, missing ones counting as 1, score the same |
| LoadScore.ScoreIsMean | pkg/plugins/dynamic/stats.go:58-82 | the score lies between what the highest and the lowest usage alone would score |
| LoadScore.ScoreIsBounded | pkg/plugins/dynamic/stats.go:58-82 | at most 100 always, and not negative when no usage exceeds 1 |
| LoadScore.NodeHotValue | pkg/plugins/dynamic/plugins.go:109-112 | the loop adds up, per window, the node's recent bindings in units of the window's count |
| LoadScore.HotValueOfOne | pkg/plugins/dynamic/plugins.go:109-112 | one window is worth q where its bindings since its line are at least q and less than q + 1 times its count |
| LoadScore.HotValueIsSum | pkg/plugins/dynamic/plugins.go:109-112 | the hot value is the sum of what the windows are worth each |
| LoadScore.Score | pkg/plugins/dynamic/plugins.go:97-124 | node score less ten per unit of heat where that is between 0 and 100, else the nearer bound |
| LoadScore.BusierNodesScoreLess | pkg/plugins/dynamic/plugins.go:108-115 | more bindings or higher usages never give the better final score |
| LoadScore.HeatIsExactOrSaturated | pkg/controller/annotator/node.go:126-134 | over any run the hot value is that of the full history, unless some window is saturated |
| LoadScore.GetMaxHotValueTimeRange | pkg/controller/annotator/utils.go:25-39 | the range covers every window and is one of them, or zero |
| LoadScore.CollectionKeepsHeat | pkg/controller/annotator/binding.go:100-123 | one collection at the time of the query, by at least the longest window, changes no hot value |
| LoadScore.HeatIgnoresCollection | pkg/controller/annotator/node.go:126-134 | over any run, collecting by the longest window of the policy gives every node the hot value that never collecting gives, when timestamps tell nodes apart |
| LoadScore.WhenCollectionIsUnobservable | pkg/controller/annotator/binding.go:85-110 | a collection step can change no count of a window if and only if the collection range is zero or has at least the window's whole seconds |
| LoadScore.PluginCollectionLosesLongWindows | pkg/plugins/dynamic/plugins.go:156 | with the plugin's five minutes that is so if and only if the window is shorter than 301 seconds |

## Left out

- ProtocolSafety.NoZoneIsOvercommitted: assumes that a pod enters a cycle without an old annotation and that binding finishes before the assumed entry expires, because `ProtocolLimits` shows a run that over-commits without either; `ProtocolExact.WhenRunIsSafe` gives the exact condition without them.
- ProtocolExact.WhenRunIsSafe: assumes that an earlier attempt of a pod was unreserved before the pod enters a cycle again, as the scheduler does, and that old annotations charge whole cores, as this plugin writes them.
- ProtocolUsage.WhenRunSeesTrueUsage: with masked pods the sums may also be true by coincidence, two old annotations making up for each other; `ProtocolCoincidence.LeftoversCanCancel` is such a run, and `ProtocolUsage.UsageBalances` accounts for the case.
- TopologyMatching.TopologyMatch.Score: requires a non-empty result, because the source divides by its length; `SplitTheorems.EmptyExactlyWhenNoCoreIsFree` says when it is empty.
- TopologyMatching.TopologyMatch.Filter: requires a request without scalar resources in multi-zone mode, because the source writes to an unallocated map there.
- Assignment.AssignRequestForNUMANode: requires a request without scalar resources, for the same reason.
- Topology.RecordedReadsBack: leaves out the pods pseudo-resource, which is never requested, and counts every non-native name as a scalar resource.
- BindingRecordKeeping.BindingRecords.AddBinding: requires a size other than 0, because the source pops an empty heap there.
- Decimals.ParseRangeMetricsByString: covers signed decimals of at most five places, not the exponents, hexadecimal forms and names that Go's parser also takes.
- Ledger.LedgerIsSum: is exact arithmetic on fifth decimals, without the rounding of binary floating point.
- PodController.ClusterNode.Reconcile: reads the clock once and sees the current annotations; failed patches, stale listers and the coalescing of queued events are not modelled.
- AdmissionSafety.NodeKeepsRoom: assumes fresh profiles of the measured length that are not negative, and that each admitted pod's account moves before the next pod is filtered.
- Admission.Filter: is about pods that have a deployment; the others are never filtered.
- LoadScore.GetNodeScore: takes the integer that the platform makes of a number that is not finite as a parameter, because the language leaves it open.
- LoadScore.Score: requires window counts other than zero, because the source divides by them.
- Assignment.SortResultByName: sort.Slice is represented by its contract alone, so equal elements may land in any order.
- NodeWrappers.NumaNode.constructor: the resource records a zone owns are values in its fields, so sharing such a record between zones is not modelled.
- Locks, goroutines, tickers and cron: each operation is one atomic step, and the protocol interleaves the steps.
- JSON, merge patches and the API server: writing an annotation and reading it back is the identity.
- Time stamps: how a stamp is printed and parsed is a parameter; only its freshness rule and the absence of a comma matter.
- 64-bit overflow and IEEE rounding: integers are unbounded and scores are real numbers.
- The measured-load filter of the Dynamic plugin, Prometheus queries, metric collection, policy loading, logging and command-line options: they would only add easy members.
