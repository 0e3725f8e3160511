# Node resource topology: a model in Dafny

The topology updater publishes, for every NUMA node of a machine, how much of each resource exists, how much pods may
use and how much is still free. This project models the three parts that decide those numbers and when they are
written, and proves what the published object means.

* **The aggregator** builds four indexes from the hardware topology and the kubelet's allocatable response, replays
  every pod's holdings against per-node counters, and renders zones. `Indexes.dfy` has the index-building loops, each
  proved equal to a fold over the flat list of pairs it visits (`Accumulate.dfy`); `Aggregator.dfy` has the class with
  heap-allocated, unaliased counter cells and map iteration in arbitrary order; `Ledger.dfy` has the replay on values
  and the theory of the greedy memory fill, `LedgerOrder.dfy` exactly when its order matters. `IndexFacts.dfy`,
  `Determinism.dfy`, `Accounting.dfy`, `BuiltFacts.dfy` and `CpuCapacity.dfy` hold the results about them.
* **The scanner** (`Scanner.dfy`) filters and normalises the raw pod list, passing numbers on as decimal text
  (`Decimal.dfy`). `EndToEnd.dfy`, `Published.dfy`, `DeviceRows.dfy`, `MemoryRows.dfy` and `Pipeline.dfy` carry the
  accounting from the raw pod list to the published rows; `Recording.dfy` and `RawHoldings.dfy` say what the amounts in
  these rows are, element by element of the inputs; `Reordering.dfy` shows which rows ignore the order of the list.
* **The updater** (`Updater.dfy`), its notifier (`Notifier.dfy`) and the API server form a transition system
  (`UpdaterSystem.dfy`) of ticks, file events, an unbuffered hand-off, scans and writes that may fail, stop requests,
  and changes of the stored object by others; `UpdaterRuns.dfy` proves the loops to be runs of it. `Attributes.dfy` has
  the two implementations of merging attributes by name; `TopologyPolicy.dfy` the deprecated policy value;
  `ExcludeList.dfy` the exclude list.

Every lemma carries `{:induction false}`: inductive proofs call themselves explicitly. `hide` keeps recursive
definitions out of proofs that use only their lemmas.

## Hypotheses

The code relies on these without enforcing them. A theorem that needs one names it in its `requires`.

* `IndexedByPosition`: the i-th topology node has ID i. `Aggregate` keys counters by position in the node list, the
  other indexes by node ID (pkg/resourcemonitor/noderesourcesaggregator.go:204).
* `DistinctProcessors`: no logical processor is listed twice in the topology.
* `OnlyCpuIds`, `NoCpuDevices`: no raw device or memory block is called "cpu". Construction itself needs less: a raw
  device called "cpu" that has IDs must name a NUMA node (`CpuDevicesPlaced`), because line 437 reads its first one.
* `NoMemoryDevices`: no raw device of a pod carries the name of a memory resource; otherwise its ID is read as a size,
  which may be negative. The rows themselves are right without it (`MemoryRowRight`); bounds and closed forms need it.
* Recorded memory per node and type (`TypeFits`), and the number of CPU IDs, are below 2^63 where a theorem says so.
* Others change only attributes this updater does not own, or delete the object (`Enabled` of `Edit` and `Delete`,
  `OthersMayDo`), and the fingerprint attribute has a name of its own (`OwnFingerprint`).

## Where the code differs from its comments

The model follows the code.

* The comment on `updateMemoryAvailable` says available starts equal to capacity; it starts equal to allocatable
  (lines 219-233), and capacity may differ.
* The comment on filling says nodes are reduced in ascending order; they are reduced in the order of the request's list.
* The comment on `hasExclusiveCPUs` says pod QoS is decided in `isWatchable`; it is not looked at, only CPU requests are.
* A request that is short of a whole CPU by less than a thousandth passes the integrality test (`IntegralInMillis`).
* The exclude list is not consulted for a node without allocatable resources (`ExcludedListedExactly`), and a pod that
  holds an excluded device crashes the replay (`CrashesExactly`, `ExcludedGpuCrashes`).
* Overlapping memory requests are served first come, first served, so what is published may depend on the order in which
  the kubelet lists pods; `FillsCommuteExactly` says for which requests it does.
* After the stored object was deleted and created again by a scan without fingerprint, it has no fingerprint until the
  next scan that has one (`FingerprintLost`); otherwise, once a scan with one was published, it has that of the latest
  such scan (`FingerprintExactly`).

## Model

| member | source | states |
|---|---|---|
| Pipeline.PublishOnce | pkg/topology-updater/topology-updater.go:139-156 | One whole publication (construct, scan, aggregate), on inputs alone: it succeeds if and only if the API answers for every pod and no watched pod holds an ID of an excluded resource that the inputs place at a node; then it gives one zone per node with distinct names, and lists at every node exactly the rows of the inputs, each with the three amounts computed from topology, allocatable response and raw pods |
| Pipeline.AllRowsRight | pkg/resourcemonitor/noderesourcesaggregator.go:202-296 | The same rows for any rendering of any built aggregator: "cpu", memory and device rows, and None exactly where the inputs list nothing |
| Pipeline.OtherRowRight | pkg/resourcemonitor/noderesourcesaggregator.go:202-296 | For every row but "cpu" the same holds without any hypothesis on the machine, the allocatable response or the pods |
| Pipeline.ListsExactly | pkg/resourcemonitor/noderesourcesaggregator.go:204-251 | A node lists exactly what the inputs record at it and is not excluded; a node without any record lists the placeholder "cpu" alone, excluded or not |
| Pipeline.ExcludedGpuCrashes | pkg/resourcemonitor/noderesourcesaggregator.go:187-197 | Concrete inputs that meet every hypothesis and crash the replay: a watched pod holds a device of an excluded resource |
| Published.CpuRowPublished | pkg/resourcemonitor/noderesourcesaggregator.go:52-99 | From the raw inputs alone: a published "cpu" row has Capacity = number of logical processors of the node, Allocatable = the allocatable CPU IDs among them, Available = Allocatable less the CPU IDs held there by watched pods with exclusive CPUs |
| Published.DeviceRowPublished | pkg/resourcemonitor/noderesourcesaggregator.go:179-199 | A published device or CPU row shows Allocatable less the watched raw holdings indexed to that node, whatever orders pods and maps are visited in |
| DeviceRows.DeviceRowRight | pkg/resourcemonitor/noderesourcesaggregator.go:179-199 | A published device row from the inputs alone: Allocatable = Capacity = the recorded amount as an int64, Available = that less the watched raw holdings whose ID the allocatable response places at the node (last node of the last device that lists it) |
| DeviceRows.DeviceRowBounded | pkg/resourcemonitor/noderesourcesaggregator.go:179-198 | When no ID is held twice and the amount fits, the published device row has 0 <= Available <= Allocatable <= Capacity |
| DeviceRows.IndexedIsLocated | pkg/resourcemonitor/noderesourcesaggregator.go:86-98 | The built index places an ID at a node if and only if the inputs do: an allocatable CPU where the topology has it, any other ID by the raw devices |
| DeviceRows.CrashesExactly | pkg/resourcemonitor/noderesourcesaggregator.go:187-197 | On raw inputs: the replay crashes if and only if a watched pod holds an ID of an excluded resource that the inputs place at a node of the topology |
| Recording.RecordedExactly | pkg/resourcemonitor/noderesourcesaggregator.go:386-430 | The recorded amount of a resource at a node, element by element: for every device of that name its number of IDs, and for every block of that type its size in bytes, each times the occurrences of the node in its topology; for "cpu" also the allocatable CPUs the topology has there |
| Recording.LocatedExactly | pkg/resourcemonitor/noderesourcesaggregator.go:367-384 | Which node the inputs give a held ID, by positions: for an allocatable CPU the node the topology has it at, else the last node of the last device with that name, that ID and a non-empty topology |
| Recording.DevicePlaceExactly | pkg/resourcemonitor/noderesourcesaggregator.go:370-382 | The same for the device index alone, as an if and only if |
| Recording.IsRecordedExactly | pkg/resourcemonitor/noderesourcesaggregator.go:389-427 | A resource is recorded at a node if and only if some device or block of that name names the node, or an allocatable CPU is there |
| Recording.CoreToNodeExactly | pkg/resourcemonitor/noderesourcesaggregator.go:52-62 | The processor map gives the ID of the last topology node that has the processor in some core, repeats or not |
| Recording.ProcessorsExactly | pkg/resourcemonitor/noderesourcesaggregator.go:55-59 | The processors of a node are those of its cores one after the other: total size and every position |
| Recording.AnyCpuRowPublished | pkg/resourcemonitor/noderesourcesaggregator.go:204-251 | The "cpu" row without any hypothesis on machine or pods: Allocatable is the recorded amount, Capacity adds the reserved CPUs, Available is short by the watched holdings placed at the node |
| Recording.ReservedExactly | pkg/resourcemonitor/noderesourcesaggregator.go:444-465 | The reserved CPUs of a node, element by element: the processors of the topology nodes with its ID whose text no raw "cpu" device and no placed allocatable CPU has |
| RawHoldings.RawHeldExactly | pkg/resourcemonitor/podresourcesscanner.go:77-148 | How often an ID is held under a resource, summed over the listing: by pods in a watched namespace with exclusive CPUs or a device, in CPU lists when exclusive, in device IDs, and in blocks of other types than memory |
| RawHoldings.ExclusiveCpusExactly | pkg/resourcemonitor/podresourcesscanner.go:98-112 | How often a CPU is held by watched pods with exclusive CPUs, summed over the listing |
| RawHoldings.RequestedExactly | pkg/resourcemonitor/podresourcesscanner.go:123-133 | How many bytes of a type are requested over a list of nodes: the sizes below 2^63 of the blocks of watched pods with that type and exactly that topology |
| RawHoldings.RequestsInOrder | pkg/resourcemonitor/podresourcesscanner.go:77-148 | Requests come in the order of pods, of containers in a pod and of blocks in a container |
| MemoryRows.MemoryRowRight | pkg/resourcemonitor/noderesourcesaggregator.go:119-175 | A published memory row from the inputs alone, whatever nodes the blocks name: Allocatable is the recorded amount, Available what the greedy replay of the watched blocks in listing order leaves of the recorded amounts, Capacity what the machine reports if it reports the node and type |
| MemoryRows.ListRowPublished | pkg/resourcemonitor/noderesourcesaggregator.go:136-170 | Closed form of the published rows of a list of nodes, when every other request of the type is over the same list or outside it: the k-th effective node shows max(0, a_k - max(0, R - sum of earlier a_j)) of its recorded a_k, R the summed sizes requested over the list |
| MemoryRows.SingleNodeClosed | pkg/resourcemonitor/noderesourcesaggregator.go:156-157 | The list of one node: max(0, recorded - sum of the sizes requested of the node), when no request names it along with others |
| Accounting.InsertedPodsLower | pkg/resourcemonitor/noderesourcesaggregator.go:254-265 | Pods inserted at any position of the list raise no Available value on any node |
| EndToEnd.RawPodLowers | pkg/resourcemonitor/podresourcesscanner.go:77-148 | The same for a raw pod inserted anywhere in the kubelet's listing, whether or not the scanner keeps it |
| BuiltFacts.DevicesBounded | pkg/resourcemonitor/noderesourcesaggregator.go:179-198 | If no device or CPU ID is held twice, 0 <= Available <= Allocatable <= Capacity for every non-memory resource after every step of the replay |
| BuiltFacts.PanicsExactly | pkg/resourcemonitor/noderesourcesaggregator.go:187-197 | The replay dereferences a missing counter if and only if some pod holds, under an excluded non-memory resource, an ID indexed to a node of the topology |
| Determinism.PublishedUnique | pkg/resourcemonitor/noderesourcesaggregator.go:267-295 | Two runs over the same inputs publish the same zones as maps of rows, whatever the iteration order of every Go map involved |
| Ledger.FillClosedForm | pkg/resourcemonitor/noderesourcesaggregator.go:136-170 | Closed form of the greedy memory fill: the k-th node of the effective list ends at max(0, a_k - max(0, request - sum of earlier a_j)); every other counter is unchanged |
| Ledger.FillConserves | pkg/resourcemonitor/noderesourcesaggregator.go:136-170 | The fill consumes exactly min(request, what the effective nodes have), and touches a node only when all nodes before it end empty |
| Ledger.FillComposes | pkg/resourcemonitor/noderesourcesaggregator.go:136-170 | Requests x then y over one node list, with repeats and unknown nodes, equal one request x + y |
| LedgerOrder.EffectiveExactly | pkg/resourcemonitor/noderesourcesaggregator.go:136-154 | Which nodes a request takes from, by positions in its list: the known nodes with the resource, up to the first known node that lacks it, in the order they first stand there |
| LedgerOrder.FillBelowZero | pkg/resourcemonitor/noderesourcesaggregator.go:156-162 | A negative request, which only a device called like memory can make, is given back to the first node with something available |
| Ledger.FillsCommute | pkg/resourcemonitor/noderesourcesaggregator.go:136-170 | Requests of different memory types or over disjoint nodes commute |
| LedgerOrder.FillsCommuteExactly | pkg/resourcemonitor/noderesourcesaggregator.go:136-170 | Exactly when the order of two requests of one type matters: they commute on all non-negative counters if and only if, for every node both effective lists share, what follows it on one list and does not precede it on the other is the same list both ways |
| LedgerOrder.OrderIrrelevantExactly | pkg/resourcemonitor/noderesourcesaggregator.go:254-265 | A whole list of charges gives the same counters in every order, from every non-negative start, if and only if any two of its charges may be swapped |
| LedgerOrder.SwappableExactly | pkg/resourcemonitor/noderesourcesaggregator.go:254-265 | Two charges of any kind commute on all counters if and only if they are Swappable: devices always, memory of different types, empty requests, or agreeing lists |
| LedgerOrder.ReplayPermutes | pkg/resourcemonitor/noderesourcesaggregator.go:254-265 | One start: pairwise swappable charges may be reordered freely |
| LedgerOrder.PlainListsAgree | pkg/resourcemonitor/noderesourcesaggregator.go:136-170 | Equal lists, lists without a shared node and single-node lists agree, so such requests commute |
| LedgerOrder.OverlapsGoBothWays | pkg/resourcemonitor/noderesourcesaggregator.go:136-170 | Overlapping lists may agree ([0,1] with [1,0], [0,2] with [1,2]) or not ([0,1] with [0]) |
| LedgerOrder.OverlappingFillsDiffer | pkg/resourcemonitor/noderesourcesaggregator.go:156-162 | A concrete pair of overlapping requests with different results in the two orders |
| LedgerOrder.SingleNodesSwappable | pkg/resourcemonitor/noderesourcesaggregator.go:156-157 | Memory requests pinned to one node each never depend on order |
| Reordering.PublishedIgnoresReordering | pkg/resourcemonitor/podresourcesscanner.go:77-148 | Two publications from listings with pods, containers, devices, CPUs and blocks in any order show the same row at every node; for a memory type, when its requests are pairwise swappable |
| UpdaterSystem.StoredShowsLastConfig | pkg/topology-updater/topology-updater.go:145-230 | Over every run: once a kubelet config was read for a publication, the stored object shows the last one read in both attributes and in TopologyPolicies |
| UpdaterSystem.StoredShowsLatestScan | pkg/topology-updater/topology-updater.go:148-227 | Over every run: after a publication the stored Zones are an aggregation of the latest published scan, its fingerprint is stored if it has one, foreign attributes keep values and order |
| UpdaterSystem.FingerprintExactly | pkg/topology-updater/topology-updater.go:180-227 | Over every run: the stored fingerprint is that of the latest published scan that had one if and only if the object was not created again by a scan without and left unsigned since; if it was, the object has none |
| UpdaterSystem.FingerprintLost | pkg/topology-updater/topology-updater.go:188-197 | A run of seven steps that loses the fingerprint: publish with one, delete, publish without |
| Updater.PublishExactly | pkg/topology-updater/topology-updater.go:180-230 | A publication succeeds if and only if client, Get and write succeed and, for a new object or when asked to, the kubelet config can be read; then the object has the new zones and the policies of the config read, else the old ones; otherwise nothing is written |
| Updater.HandleEnds | pkg/topology-updater/topology-updater.go:147-171 | How one event ends the loop, by its answers alone: crash, error, return with Oneshot, or not at all |
| UpdaterRuns.RunEndsOnlyFor | pkg/topology-updater/topology-updater.go:145-177 | Over every trace: the loop returns an error only on an event with a failed answer, crashes only on a scan that makes the replay crash, and returns otherwise only on a stop signal or with Oneshot |
| UpdaterRuns.RunKeepsOn | pkg/topology-updater/topology-updater.go:145-177 | Over every trace of failed scans, changes by others and events with every answer good, without Oneshot, the loop keeps running |
| UpdaterRuns.FileEventUpdates | pkg/topology-updater/topology-updater.go:210-227 | A state-file event on an existing object needs no kubelet config: the loop goes on with the zones of the scan and the policies as they were |
| UpdaterRuns.TickReadsConfig | pkg/topology-updater/topology-updater.go:158-161 | A tick reads the config: the object shows its policy and scope in both attributes and in TopologyPolicies |
| UpdaterSystem.CreatedExactly | pkg/topology-updater/topology-updater.go:188-209 | The object a first publication creates, field by field: policies, zones, both config attributes in order, then the fingerprint |
| UpdaterRuns.RunIsReachable | pkg/topology-updater/topology-updater.go:145-177 | Every state the event loop Run can end in, over any trace of expected events, stop signals, deletions and foreign edits, is a reachable state of the transition system that has taken the same events and scans |
| UpdaterRuns.RunShowsLastScan | pkg/topology-updater/topology-updater.go:145-177 | So while Run is running over a trace with a successful scan, Oneshot is off and the stored object shows the zones and the fingerprint of the last successful scan of the trace |
| UpdaterRuns.SentAreTaken | pkg/topology-updater/kubeletnotifier/kubeletnotifier.go:56-84 | Over every run: what the notifier loop sends for the triggers received is what the updater has taken, then what is still being sent, in order |
| UpdaterSystem.NoFileEventLost | pkg/topology-updater/kubeletnotifier/kubeletnotifier.go:65-83 | Over every run: state-file events received = those taken by the updater, then at most one pending, in order; every notification taken stems from a tick or such an event; at most one stop request is pending |
| UpdaterSystem.PublishingLimits | pkg/topology-updater/topology-updater.go:163-171 | NoPublish never writes; Oneshot writes at most once, the first successful scan, and ends; while running, every successful scan has been published once and in order |
| UpdaterSystem.OnlyWritesChange | pkg/topology-updater/topology-updater.go:148-167 | Only a logged write or a change by others alters the stored object; a failed scan changes nothing |
| Indexes.MakeLogicalCoreIDToNodeIDMap | pkg/resourcemonitor/noderesourcesaggregator.go:52-62 | The three nested loops build the last-writer-wins map of (processor, node ID) pairs |
| Indexes.AppendGroups | pkg/resourcemonitor/noderesourcesaggregator.go:86-96 | One pseudo-device per CPU group, each group exactly once, in arbitrary map order |
| Indexes.GetContainerDevicesFromAllocatableResources | pkg/resourcemonitor/noderesourcesaggregator.go:67-99 | The raw devices followed by the CPU groups of the allocatable CPU IDs the topology places |
| Indexes.RecordDeviceIDs | pkg/resourcemonitor/noderesourcesaggregator.go:376-381 | The loop over device IDs writes exactly those entries |
| Indexes.RecordDevice | pkg/resourcemonitor/noderesourcesaggregator.go:370-382 | One device adds its name and its (ID, node) entries, later nodes overriding earlier ones |
| Indexes.MakeResourceMap | pkg/resourcemonitor/noderesourcesaggregator.go:367-384 | The index has an outer entry per device name and exactly the last-writer-wins entries |
| Indexes.CountDevice | pkg/resourcemonitor/noderesourcesaggregator.go:392-403 | One device adds its number of IDs, in int64, at each of its nodes |
| Indexes.CountBlock | pkg/resourcemonitor/noderesourcesaggregator.go:405-427 | One memory block adds its size, cast to int64, at each of its nodes; a block without topology adds nothing |
| Indexes.MakeNodeAllocatable | pkg/resourcemonitor/noderesourcesaggregator.go:389-430 | Allocatable holds exactly the int64 tallies of all device and block amounts, and no node without an entry |
| Indexes.GetCPUs | pkg/resourcemonitor/noderesourcesaggregator.go:432-442 | Exactly the IDs of devices called "cpu", each with the first node of a device that lists it |
| Indexes.MakeReservedCPUMap | pkg/resourcemonitor/noderesourcesaggregator.go:444-465 | Per node, in order, the processors that no CPU device lists |
| IndexFacts.IdsAtMostCount | pkg/resourcemonitor/noderesourcesaggregator.go:367-403 | Pigeonhole: the distinct IDs listed at a node for a resource are at most the amount counted there |
| IndexFacts.IndexedIsCounted | pkg/resourcemonitor/noderesourcesaggregator.go:367-403 | Whatever node the index gives for an ID, that node counted the resource with a positive amount |
| IndexFacts.IndexLookup | pkg/resourcemonitor/noderesourcesaggregator.go:86-98 | A CPU group entry wins over raw devices, and for any order of groups there is at most one |
| IndexFacts.GroupsDisjoint | pkg/resourcemonitor/noderesourcesaggregator.go:73-84 | CPU groups of different nodes share no ID, because decimal formatting is injective |
| BuiltFacts.IndexedHasEntry | pkg/resourcemonitor/noderesourcesaggregator.go:299-308 | Two-index agreement on the built aggregator, multi-node devices included |
| BuiltFacts.IndexedHasCounter | pkg/resourcemonitor/noderesourcesaggregator.go:204-241 | An indexed device of a topology node has a counter if and only if its resource is not excluded |
| BuiltFacts.AllocatableIsRecorded | pkg/resourcemonitor/noderesourcesaggregator.go:386-430 | Allocatable is the recorded amount wrapped to int64; a resource has an entry exactly when some input records it |
| BuiltFacts.AllocatableExactWhenItFits | pkg/resourcemonitor/noderesourcesaggregator.go:423-425 | Allocatable equals the recorded amount if and only if that amount is below 2^63 |
| BuiltFacts.MemoryStarts | pkg/resourcemonitor/noderesourcesaggregator.go:219-233 | When recorded memory fits in int64, no memory counter starts negative |
| BuiltFacts.HeldAtMostRecorded | pkg/resourcemonitor/noderesourcesaggregator.go:187-197 | Holdings of pairwise different IDs indexed to a counter are at most the amount recorded for it |
| Determinism.BuiltUnique | pkg/resourcemonitor/noderesourcesaggregator.go:299-309 | Construction yields one value although CPU groups are visited in map order |
| Determinism.RenderingUnique | pkg/resourcemonitor/noderesourcesaggregator.go:267-295 | Any two renderings of the same counters are equal as maps from zone name to rows |
| Determinism.ZonesWellNamed | pkg/resourcemonitor/noderesourcesaggregator.go:267-295 | Exactly one zone per topology node, pairwise distinct zone names, distinct resource names inside each zone |
| Determinism.ZoneNameInjective | pkg/resourcemonitor/noderesourcesaggregator.go:335-337 | Different node IDs give different zone names |
| Determinism.ZoneNameExactly | pkg/resourcemonitor/noderesourcesaggregator.go:335-337 | The zone of node n is called "node-" followed by n in decimal digits without leading zeros, and by no other text |
| Aggregator.NodeResources.FromData | pkg/resourcemonitor/noderesourcesaggregator.go:299-309 | The constructed aggregator holds the four indexes of one device list |
| Aggregator.NodeResources.NodeCells | pkg/resourcemonitor/noderesourcesaggregator.go:205-241 | Fresh unaliased cells for exactly the non-excluded allocatable resources of a node, with their initial amounts and capacities |
| Aggregator.NodeResources.NodeRow | pkg/resourcemonitor/noderesourcesaggregator.go:204-251 | The same, with the placeholder CPU cell for a node without allocatables |
| Aggregator.NodeResources.FreshCounters | pkg/resourcemonitor/noderesourcesaggregator.go:203-252 | Fresh unaliased cells for every node, holding exactly the starting counters |
| Aggregator.NodeResources.UpdateMemoryAvailable | pkg/resourcemonitor/noderesourcesaggregator.go:119-175 | The heap cells end as the greedy fill prescribes; an entry without nodes, without exactly one datum, or unreadable changes nothing |
| Aggregator.NodeResources.UpdateAvailable | pkg/resourcemonitor/noderesourcesaggregator.go:179-199 | Crashes exactly on a missing counter of a known node; otherwise decrements once per known ID |
| Aggregator.NodeResources.ChargeContainer | pkg/resourcemonitor/noderesourcesaggregator.go:256-263 | Memory entries go to the fill, all others to the lookup; a crash exactly when one charge faults |
| Aggregator.NodeResources.ChargePod | pkg/resourcemonitor/noderesourcesaggregator.go:255-264 | The replay of the charges of all containers of a pod, in order |
| Aggregator.NodeResources.ChargePods | pkg/resourcemonitor/noderesourcesaggregator.go:254-265 | The replay of the charges of all pods, in order |
| Aggregator.NodeResources.RenderRows | pkg/resourcemonitor/noderesourcesaggregator.go:282-292 | One row per resource of the node, in some order, with the cell's three amounts |
| Aggregator.NodeResources.RenderZone | pkg/resourcemonitor/noderesourcesaggregator.go:269-293 | Name, type, costs and rows of one zone |
| Aggregator.NodeResources.RenderZones | pkg/resourcemonitor/noderesourcesaggregator.go:267-295 | One zone per node, in some order |
| Aggregator.NodeResources.Aggregate | pkg/resourcemonitor/noderesourcesaggregator.go:202-296 | Crashes exactly when the replay faults; otherwise the zones show the final counters of the replay |
| Aggregator.FindNodeByID | pkg/resourcemonitor/noderesourcesaggregator.go:339-346 | The first node with the ID, or none |
| Aggregator.MakeCostsPerNumaNode | pkg/resourcemonitor/noderesourcesaggregator.go:349-363 | The distances of the node in order under zone names; nothing for an unknown node |
| Published.CostsPublished | pkg/resourcemonitor/noderesourcesaggregator.go:267-280 | The published zone n is of type "Node" and its costs are the distances of topology node n, in order, each under the name of a published zone |
| Published.FindNodeExactly | pkg/resourcemonitor/noderesourcesaggregator.go:339-346 | The node found for an ID is the first one that has it |
| Published.RowsPublished | pkg/resourcemonitor/noderesourcesaggregator.go:282-292 | A zone lists exactly the node's resources, each with its final counters |
| Ledger.FillMonotone | pkg/resourcemonitor/noderesourcesaggregator.go:136-170 | Lower counters and a larger request never leave more behind |
| Ledger.FillNonNegative | pkg/resourcemonitor/noderesourcesaggregator.go:136-170 | Memory counters stay non-negative and never rise |
| Ledger.FillFrame | pkg/resourcemonitor/noderesourcesaggregator.go:136-170 | Only counters of the requested type on listed nodes change |
| Ledger.FillPrefix | pkg/resourcemonitor/noderesourcesaggregator.go:156-169 | After a fill any prefix of the effective list holds max(0, what it held - request) |
| Ledger.ReplayInsert | pkg/resourcemonitor/noderesourcesaggregator.go:254-265 | Charges inserted anywhere leave no counter higher |
| Ledger.ReplayCountsUnits | pkg/resourcemonitor/noderesourcesaggregator.go:179-198 | A device counter falls by exactly the number of charges against it |
| Ledger.ReplayOnList | pkg/resourcemonitor/noderesourcesaggregator.go:136-170 | Requests over one list, with all others of the type outside it, leave on it what one request for their sum leaves |
| Ledger.ListClosedForm | pkg/resourcemonitor/noderesourcesaggregator.go:136-170 | Hence the closed form of the whole replay on such a list |
| Ledger.ReplayOfType | pkg/resourcemonitor/noderesourcesaggregator.go:254-265 | The counters of a memory type depend only on the requests of that type |
| Ledger.ReplayConserves | pkg/resourcemonitor/noderesourcesaggregator.go:254-265 | Conservation over the whole replay: of each memory type all nodes together lose exactly what the requests get in turn, each min(size, what its nodes have left); that is all they ask for if and only if every request finds its full size |
| Ledger.ReplayAgrees | pkg/resourcemonitor/noderesourcesaggregator.go:254-265 | Counters of one resource evolve independently of the others |
| Accounting.DeviceAvailable | pkg/resourcemonitor/noderesourcesaggregator.go:179-198 | Available is Allocatable less the holdings indexed to the counter, exactly |
| Accounting.UnitsOfPods | pkg/resourcemonitor/noderesourcesaggregator.go:254-265 | The device charges against a counter number the holdings indexed to it |
| Accounting.EveryStepBounded | pkg/resourcemonitor/noderesourcesaggregator.go:254-265 | After any number of steps Available is at most Allocatable and memory is not negative |
| Accounting.DevicesIgnoreOrder | pkg/resourcemonitor/noderesourcesaggregator.go:254-265 | Reordering pods changes no device counter |
| Accounting.PodsIgnoreOrder | pkg/resourcemonitor/noderesourcesaggregator.go:254-265 | Reordering pods changes no counter at all when any two of their charges may be swapped |
| Accounting.ExclusionLocal | pkg/resourcemonitor/noderesourcesaggregator.go:208-211 | A resource outside the exclude list is listed, and has the same three amounts on every node, exactly as with an empty list |
| Accounting.ExcludedListedExactly | pkg/resourcemonitor/noderesourcesaggregator.go:242-251 | An excluded resource is listed only as the placeholder CPU row of a node without allocatables |
| CpuCapacity.ProcessorPlaced | pkg/resourcemonitor/noderesourcesaggregator.go:52-62 | The processor map sends a processor to the one node that has it |
| CpuCapacity.CpuIndexedExactly | pkg/resourcemonitor/noderesourcesaggregator.go:73-96 | The index sends "cpu" IDs to a node exactly for the allocatable CPU IDs that are its processors |
| CpuCapacity.CpusPartition | pkg/resourcemonitor/noderesourcesaggregator.go:444-465 | Every processor of a node is either reserved there or indexed there, never both |
| CpuCapacity.ReservedCountIs | pkg/resourcemonitor/noderesourcesaggregator.go:444-465 | The reserved CPUs of a node number its processors outside the allocatable CPU IDs |
| CpuCapacity.CpuCapacityCounts | pkg/resourcemonitor/noderesourcesaggregator.go:213-218 | CPU Capacity is the number of processors plus one per repeated allocatable ID, in both branches |
| CpuCapacity.CpuCapacityExact | pkg/resourcemonitor/noderesourcesaggregator.go:244-250 | CPU Capacity is the number of processors if and only if no allocatable CPU ID of the node is listed twice |
| ExcludeList.NewExcludeResourceList | pkg/resourcemonitor/excludelist.go:15-26 | Exactly the resources configured for this node or for "*" |
| Decimal.ParseFormat | pkg/resourcemonitor/noderesourcesaggregator.go:130-134 | Parsing undoes decimal formatting exactly on the int64 range and fails outside it |
| Decimal.FormatInjective | pkg/resourcemonitor/noderesourcesaggregator.go:451-452 | Different numbers have different decimal texts |
| Decimal.FormatPositional | pkg/resourcemonitor/podresourcesscanner.go:103-104 | Decimal text is digits without a leading zero, one digit per power of ten |
| Decimal.ParseExactly | pkg/resourcemonitor/noderesourcesaggregator.go:130-134 | Parsing accepts digits after at most one sign within the int64 range, and reads them in base ten |
| Scanner.AddRequests | pkg/resourcemonitor/podresourcesscanner.go:217-228 | The accumulating loop over one container list, early return included |
| Scanner.HasExclusiveCPUs | pkg/resourcemonitor/podresourcesscanner.go:214-243 | True exactly when all requests of init and app containers pass the integrality test and their int64 sum is not zero; ExclusiveExactly says what that means on the two lists |
| Scanner.IntegralExactly | pkg/resourcemonitor/podresourcesscanner.go:246-249 | A request passes the test if and only if it lies less than a thousandth of a CPU below a whole number |
| Scanner.IntegralInMillis | pkg/resourcemonitor/podresourcesscanner.go:246-249 | For requests in thousandths of a CPU the test is integrality; a concrete finer request passes it without being whole |
| Scanner.ExclusiveExactly | pkg/resourcemonitor/podresourcesscanner.go:211-243 | For non-negative requests with an int64 sum: exclusive if and only if every init and app container that has a CPU request has a whole number or less than a thousandth below one, and some container of either list has a positive one |
| Scanner.ExclusiveInMillis | pkg/resourcemonitor/podresourcesscanner.go:211-243 | For requests in thousandths of a CPU: exclusive if and only if every request of an init or app container is a whole number of CPUs and some is positive |
| Scanner.HasDevice | pkg/resourcemonitor/podresourcesscanner.go:186-194 | True exactly when some container has devices |
| Scanner.IsWatchable | pkg/resourcemonitor/podresourcesscanner.go:156-173 | The watch decision for "*" and for one namespace, and the API error case |
| Scanner.GetNumaNodeIds | pkg/resourcemonitor/podresourcesscanner.go:196-209 | The node IDs in order, none without topology |
| Scanner.ScanContainer | pkg/resourcemonitor/podresourcesscanner.go:93-134 | CPU entry for guaranteed pods, device entries, non-empty memory entries, in this order |
| Scanner.ScanContainers | pkg/resourcemonitor/podresourcesscanner.go:93-140 | Containers without entries are dropped |
| Scanner.PodResourcesScanner.Scan | pkg/resourcemonitor/podresourcesscanner.go:46-153 | Fails exactly when the listing or an API answer does; otherwise the watched pods with entries, and the fingerprint |
| RawHoldings.ScannedPodsExactly | pkg/resourcemonitor/podresourcesscanner.go:77-148 | The scanned pods are the watched ones with some entry, under their own name and namespace |
| RawHoldings.KeptContainersExactly | pkg/resourcemonitor/podresourcesscanner.go:93-140 | The scanned containers are those with some entry, under their own name |
| RawHoldings.EntriesExactly | pkg/resourcemonitor/podresourcesscanner.go:98-134 | The entries of a container, field by field: its CPU texts if exclusive, each device, each block that is not empty |
| Scanner.FingerprintReported | pkg/resourcemonitor/podresourcesscanner.go:57-74 | A scan reports the fingerprint of the whole listing under the configured name if it is on, the listing is not empty and the hash succeeds; and nothing else |
| EndToEnd.ScannedHold | pkg/resourcemonitor/podresourcesscanner.go:77-148 | Filtering loses no holding: scanned pods hold what the watched raw pods hold, in order |
| EndToEnd.ScannedSizes | pkg/resourcemonitor/podresourcesscanner.go:123-133 | Scanned pods never ask for a negative amount of memory |
| EndToEnd.MemoryHandOff | pkg/resourcemonitor/podresourcesscanner.go:123-133 | A scanned block becomes a request of exactly its size below 2^63, and no request from there up |
| PodResourcesApi.MemoryNames | pkg/resourcemonitor/noderesourcesaggregator.go:258-259 | Memory-like are "memory" and every name that starts with "hugepages-" |
| EndToEnd.RawDeviceAvailable | pkg/resourcemonitor/podresourcesscanner.go:98-121 | Available from the raw pod list, for any namespace filter and API answers |
| EndToEnd.AvailableByHoldings | pkg/resourcemonitor/podresourcesscanner.go:77-148 | Listings with the same holdings give every device counter the same Available |
| Reordering.HoldingsReordered | pkg/resourcemonitor/podresourcesscanner.go:77-148 | A listing with pods, containers, CPUs, device entries, device IDs and blocks in any order has the same holdings |
| Reordering.RequestsReordered | pkg/resourcemonitor/podresourcesscanner.go:123-133 | It makes the same memory requests of every type |
| Reordering.RowsIgnoreReordering | pkg/resourcemonitor/podresourcesscanner.go:77-148 | Every row of the inputs is the same for both listings, memory rows when their requests may be served in any order |
| Reordering.SuccessIgnoresReordering | pkg/resourcemonitor/podresourcesscanner.go:77-148 | A publication from one of them succeeds if and only if it does from the other |
| MemoryRows.ScannedCharges | pkg/resourcemonitor/podresourcesscanner.go:77-148 | The scanner's filtering does not show in the charges |
| MemoryRows.RawRequests | pkg/resourcemonitor/podresourcesscanner.go:123-133 | The requests of one type that the replay meets are the readable blocks of watched raw pods, in order (and devices called like the type) |
| MemoryRows.RequestsProper | pkg/resourcemonitor/podresourcesscanner.go:123-133 | Without devices called like memory none of them is negative |
| Attributes.FindAttrByName | pkg/apis/topology/v1alpha1/helper/attribute/attribute.go:84-92 | The position of the first attribute with the name |
| Attributes.Get | pkg/apis/topology/v1alpha1/helper/attribute/attribute.go:28-34 | The first match, or the zero value and false |
| Attributes.Insert | pkg/apis/topology/v1alpha1/helper/attribute/attribute.go:41-52 | A fresh updated copy; the input itself for an empty name; the input array is never written |
| Attributes.Merge | pkg/apis/topology/v1alpha1/helper/attribute/attribute.go:57-68 | A fresh list: existing attributes with new values, then the attributes with new names; inputs never written |
| Attributes.DeleteAll | pkg/apis/topology/v1alpha1/helper/attribute/attribute.go:73-82 | A fresh list without the name; the input never written |
| Attributes.UpdateAttribute | pkg/topology-updater/topology-updater.go:341-353 | In-place replacement of the first match, or append; a nil list is left alone |
| Attributes.UpdateAttributes | pkg/topology-updater/topology-updater.go:336-340 | The updates applied one by one in place |
| Attributes.UpsertAllLookup | pkg/topology-updater/topology-updater.go:336-353 | After an update every updated name has its last value, every other its old one, existing names keep their places |
| Attributes.ForeignUntouched | pkg/topology-updater/topology-updater.go:336-353 | Attributes of other names keep their values and relative order |
| Attributes.MergeLookup | pkg/apis/topology/v1alpha1/helper/attribute/attribute.go:57-68 | Exact lookup law of Merge: last update wins for an existing name, first for a new one, else the old value |
| Attributes.MergeKeepsNames | pkg/apis/topology/v1alpha1/helper/attribute/attribute.go:54-68 | Merge leaves existing names in their original places |
| Attributes.UpdateEqualsMergeExactly | pkg/apis/topology/v1alpha1/helper/attribute/attribute.go:57-68 | The in-place update equals Merge if and only if no name absent from the existing list is updated twice |
| Attributes.UpdateEqualsInsertsExactly | pkg/apis/topology/v1alpha1/helper/attribute/attribute.go:41-52 | The in-place update equals inserting one by one if and only if there is no empty name, or its last value is already there |
| Attributes.WithoutLookup | pkg/apis/topology/v1alpha1/helper/attribute/attribute.go:70-82 | After DeleteAll the name is gone and every other lookup is unchanged |
| Attributes.WithoutInOrder | pkg/apis/topology/v1alpha1/helper/attribute/attribute.go:70-82 | It works attribute by attribute: others are kept once and in place |
| Attributes.LastValueExactly | pkg/topology-updater/topology-updater.go:336-353 | The value an update gives a name is that of its last entry with the name |
| TopologyPolicy.DetectInjective | pkg/topologypolicy/topology-policy.go:36-75 | Any value but None determines the policy and the scope |
| TopologyPolicy.DetectNone | pkg/topologypolicy/topology-policy.go:36-75 | None exactly for an unknown scope or a policy without a level |
| TopologyPolicy.DetectExactly | pkg/topologypolicy/topology-policy.go:36-75 | The detected value of every policy with a level in both scopes, spelled out |
| Updater.UpdateNRTTopologyManagerInfo | pkg/topology-updater/topology-updater.go:273-286 | Sets both attributes and TopologyPolicies, or changes nothing on a config error |
| Updater.UpdateNodeResourceTopology | pkg/topology-updater/topology-updater.go:180-230 | One publication: create or update, with every early error return leaving the server unchanged |
| Updater.TopologyUpdater.HandleEvent | pkg/topology-updater/topology-updater.go:147-171 | One event: failed scans, crashes, NoPublish, publication errors and Oneshot |
| Updater.TopologyUpdater.Run | pkg/topology-updater/topology-updater.go:145-177 | The event loop over any trace of events, stop signals and outside changes |
| UpdaterSystem.ReachableInv | pkg/topology-updater/topology-updater.go:145-177 | All three invariants (hand-off, flow, stored object) hold in every reachable state |
| UpdaterSystem.WrittenLookup | pkg/topology-updater/topology-updater.go:188-221 | Each attribute of a written object: from the scan, else the config read, else what was there |
| UpdaterSystem.WrittenForeign | pkg/topology-updater/topology-updater.go:200-221 | A write leaves foreign attributes alone; a created object has none |
| UpdaterSystem.WorkOutcome | pkg/topology-updater/topology-updater.go:147-171 | What one turn of work does to the stored object and the status, with and without a write |
| UpdaterSystem.ScansReport | pkg/resourcemonitor/podresourcesscanner.go:57-74 | Whatever a scan reports as attributes is at most the fingerprint |
| Notifier.Run | pkg/topology-updater/kubeletnotifier/kubeletnotifier.go:56-84 | The select loop sends one notification per tick and per state-file event, in order, and nothing else |
| Notifier.BaseOfFile | pkg/topology-updater/kubeletnotifier/kubeletnotifier.go:75-78 | A file directly in a watched directory is recognised by its own name |
| Notifier.NotifiedExactly | pkg/topology-updater/kubeletnotifier/kubeletnotifier.go:68-80 | A tick is notified as interval-based; a change of a file in a directory is notified if and only if it is cpu_manager_state, memory_manager_state or kubelet_internal_checkpoint |

## Left out

- The sysfs and meminfo readers, the podresources client, the Kubernetes API, the kubelet config and the YAML config: their answers are inputs, each of which may be an error where the code handles one.
- The fingerprint hash is an arbitrary function of the pod list that may fail; the name of its attribute, defined in an external package, is a parameter.
- During one scan the API server's answers are a function of namespace and pod name.
- Nil elements inside repeated protobuf fields, which decoding does not produce.
- Counters are unbounded integers after construction: with non-negative sizes a fill stays between zero and its start, and a decrement leaves the int64 range only after 2^63 holdings. The allocatable sums and the CPU request total do wrap at 64 bits in the model.
- CPU quantities are integers of a billionth of a CPU; overflow inside resource.Quantity and of Value()*1000 is not modelled.
- A publication is one atomic step of the transition system: a change by others between its Get and its Update makes the Update fail at the server, which the model has as a failing write.
- Real time and dropped ticks: ticks may arrive whenever the notifier is ready.
- Updater.TopologyUpdater.Run: takes a finite trace of what the select receives, instead of looping forever on channels.
- UpdaterRuns.RunIsReachable: does not cover traces in which others create the object, or change the updater's own attributes, zones or policies.
- MemoryRows.ListRowPublished: has no closed form for a list that another request of the type overlaps; there the row is the ordered replay that MemoryRows.MemoryRowRight states.
- Attributes.Merge: slices are arrays and append always copies, so spare capacity of a backing array is not modelled.
- getMemoryResourcesCapacity, which copies the machine's memory totals, and makeResourceMap's unused first parameter.
- Generated code, logging, dumpers, metrics, flags, version and the main programs.
