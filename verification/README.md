# K-Bench: the driver, the pod timeline and the PMU sampler, in Dafny

K-Bench reads a list of operations, runs each with many goroutines against a Kubernetes cluster,
records when every pod was first seen, scheduled, initialized and running, and reduces the
timestamps to latency and throughput figures. Next to it lives a Python script that samples Intel
performance counters on ESX hosts through `vmkperf`. This project models the parts of both that
carry state, arithmetic or parsing, and proves what holds over every input, every order of events
and every run. `dafny verify dfyconfig.toml` checks all of it.

| module | what it models |
|---|---|
| `Basics` | action names, the remainder of Go, and facts about set sizes and products |
| `Strings` | Go and Python string operations: printing and reading integers, splitting, joining, searching |
| `ResourceNames` | pod names and the operation number read back out of them |
| `PodTimeline` | class `PodManager`: the nine timestamp maps and the handlers that write them, each atomic under its mutex |
| `PodRuns` | every run of the handlers: which keys exist, what is never overwritten, success rate, stability |
| `PodClock` | the client timestamps against a clock that never goes back, and the rounding of latencies |
| `LatencyStats`, `LatencyReports`, `Throughput` | `CalculateStats`: samples gathered from Go maps in any order, percentiles, totals per operation |
| `PmuIndex` | class `ArchitecturePMU`: the index over the JSON events by name and by components |
| `PmuRequests` | class `ProcessPMUEvent`: parsing, look-up and duplicate rejection, and the `vmkperf` commands |
| `PmuSampling` | the greedy batching loop and the time budget, over class `Vmkperf` |
| `JsonFileOrder` | the loop that deletes from and appends to the list it enumerates |
| `Driver` | client pools, repeated operations, numbering over any number of rounds |
| `Goroutine`, `Barrier` | what one goroutine does, and the wait group over every interleaving |
| `Waits` | the chained waits between operations |
| `Labels` | labels of created objects and the selectors of later actions |
| `Predicates` | the predicate mini-language |

A class stands where the source updates fields in place; its methods are specified by functions on
values (`PodTimeline.Observe`, `PmuIndex.AddAll`, `PmuRequests.Process`, ...), and the lemmas about
whole runs are stated on those functions. A Go `range` over a map becomes a loop that picks any
remaining key. A Go run-time panic or a refused request is the value `None`.

What the environment decides is a parameter: clock readings (`Delivery.firstNow`, `readyNow`,
`conditionNow`), the pod an informer delivers, the API's event list (`None` when the call fails), the
outcome of a CREATE, elapsed minutes, what each poll of a wait sees, the sets of events that fit the
hardware counters together, and the seconds each collection takes. Assumptions on them stand in the lemmas that need them: a clock that never goes back (`PodClock.Clock`), conditions
listed in order (`PodClock.AllListedInOrder`), Pending before Running (`PodClock.PendingBeforeRunning`),
and that fewer events fit wherever more do (`PmuSampling.DownClosed`).

## What came out differently from the comments and the documentation

- `README.md:259-260` gives a default timeout of 3 minutes and calls it the longest wait after an
  operation. The code uses 1 000 000 ms, and the four chained waits together can reach
  2R - interval, where R is the timeout rounded up to whole intervals; the bound is met
  (`Waits.ChainBoundMet`), and the timeout is the longest wait only if it equals the interval
  (`Waits.TimeoutIsLongest`).
- The comments in `manager/pod_manager.go:66-70` speak of conditions being true; `checkAndUpdate` never
  looks at a condition's status (`PodTimeline.StatusIgnored`), and takes the phase Running for readiness.
- The delayed PodInitialized fallback (`manager/pod_manager.go:224-227`) overwrites an entry, and stores the
  zero time if the pod was never seen scheduled (`PodRuns.InitedOverwritten`, `PodRuns.InitedDoesChange`).
  Which pods have an initialized time at all can depend on the order of the deliveries;
  `PodRuns.InitedOrderIff` says exactly when it does not.
- `manager/pod_manager.go:311` tests the scheduler events where the Pulled events are meant, so a pod
  without a Pulled event gets the zero time as its pulled time (`PodRuns.DeletedRow`).
- The reordering loop is said to put the matrix file first; it does so if and only if one
  stood at index 0 or 1 (`JsonFileOrder.MatrixFirst`).
- Components that only unused events have are reported as "cannot be used", yet such a request would be
  accepted (`PmuRequests.UnusedOnlyAccepted`); the branch is dead, since no event file leads there
  (`PmuRequests.NeverUnusedOnly`). A request refused as a duplicate event still uses up its identifier
  (`PmuRequests.AcceptedIff` holds with exactly these rules). For a request by name the `e` and `i`
  modifiers and the counter mask do not enter the key under which it counts as used.
- A CREATE picks its client by the object's "tid" label, which a user label with that key replaces:
  then all CREATEs of an operation go to one client, or panic on a negative index. `Driver.FairCreatesIff`
  and `Driver.CreatesSucceedIff` say exactly when.
- `go` comes before `wg.Add`, so a fast goroutine can make the wait group panic, in every program that
  has a goroutine at all (`Barrier.CanPanicIff`, and `Barrier.PanicExactly` for the step that does it);
  `wg.Wait` itself keeps operations apart in any case, without an assumption on that order.
- A label piece without `=` in a predicate panics (`Predicates.LabelsFail`), and a short path whose
  text holds "namespaces" anywhere is refused (`Predicates.ShortRoundTrip`).

## Model

| member | source | states |
|---|---|---|
| Strings.SplitJoin | util/predicate.go:234 | splitting a text joined from separator-free parts gives the parts back |
| Strings.AtoiItoa | manager/pod_manager.go:1094 | a printed 64-bit integer is read back, minus sign included |
| Strings.AtoiOfOthers | manager/pod_manager.go:378 | beside an error that is dropped, a text that is no number gives 0 and a number beyond 64 bits the nearest within |
| ResourceNames.MarkerPositions | manager/pod_manager.go:1090-1091 | the last "-oid-" and the last "-tid-" of a name are the ones it was put together with, even if the prefix holds markers |
| ResourceNames.OpNumRoundTrip | manager/pod_manager.go:1088-1099 | whatever stands before the marker and whatever marker-free text is appended, the operation number comes back and no slice panics |
| ResourceNames.PodNameRoundTrip | manager/pod_manager.go:938-944 | getOpNum undoes GetResourceName for every prefix and every marker-free suffix |
| ResourceNames.PanicsIff | manager/pod_manager.go:1090-1093 | exactly which names make the slice panic, among them all without "-tid-" |
| ResourceNames.UnreadableNumber | manager/pod_manager.go:1093-1098 | a text between the markers that is no 64-bit integer gives -1 |
| ResourceNames.NameInjective | manager/deployment_manager.go:516 | across all kinds, equal generated names come from equal fixed part and prefix, operation and goroutine |
| ResourceNames.PodNameInjective | manager/pod_manager.go:938-944 | equal names come from equal prefix, operation and goroutine |
| PodTimeline.PodManager.CheckAndUpdate | manager/pod_manager.go:167-235 | the whole new state after a delivery, as a function of the old state, the pod and the clock readings |
| PodTimeline.PodManager.CheckRunning | manager/pod_manager.go:186-214 | first Running delivery: creation, ready and run times and the initialized fallback; later ones change nothing |
| PodTimeline.PodManager.CheckPending | manager/pod_manager.go:215-234 | only the conditions up to the first PodInitialized matter, and only two maps change |
| PodTimeline.StatusIgnored | manager/pod_manager.go:216-233 | deliveries that differ only in the status of conditions have the same effect |
| PodTimeline.FalseCondition | manager/pod_manager.go:218-221 | a pod whose PodScheduled condition is false gets a scheduled time |
| PodTimeline.LastRunning | manager/pod_manager.go:194-202 | the latest start of a running container: an upper bound of all, and one of them unless it is the zero time |
| PodTimeline.PodManager.UpdateBeforeDeletion | manager/pod_manager.go:281-318 | the new schedule and pulled times, whichever order the map is visited in; nothing changes for a known pod or a failed listing |
| PodTimeline.PodManager.GroupEvents | manager/pod_manager.go:297-305 | both maps of events by object, the last listed event of a kind winning |
| PodTimeline.PodManager.Refresh | manager/pod_manager.go:307-314 | every pod with a creation time and a scheduler event gets both entries, in any order of the keys |
| PodTimeline.LastTimesMeaning | manager/pod_manager.go:299-305 | an object has an entry if and only if it has an event of the kind, and the entry is the time of the last one |
| PodTimeline.PodManager.Create | manager/pod_manager.go:378-416 | which client is used, or the panic, by the object's "tid" label; one latency and one namespace entry per successful call, nothing on failure |
| PodTimeline.PodManager.Delete | manager/pod_manager.go:709-729 | event times are completed first, then the latency is recorded and the pod forgotten |
| PodRuns.ObserveRow | manager/pod_manager.go:167-235 | a delivery acts on the entries of its own pod by the first-write rules and on no other pod |
| PodRuns.DeletedRow | manager/pod_manager.go:281-318 | a deletion changes exactly the two event times of the pods with a creation time and a scheduler event; a missing Pulled event becomes the zero time |
| PodRuns.DeletionMeaning | manager/pod_manager.go:297-314 | the times come from the last event of the default scheduler and the last other event with reason Pulled of each pod |
| PodRuns.ScanFindsScheduled | manager/pod_manager.go:216-233 | a scheduled time is read if and only if PodScheduled is listed before any PodInitialized |
| PodRuns.ReachableKeysAgree | manager/pod_manager.go:167-318 | in every reachable state: createTimes and cReadyTimes have the same keys, within cFirstTimes; runTimes within cReadyTimes; pulledTimes and scheduleTimes have the same keys, within createTimes |
| PodRuns.SlotKeys | manager/pod_manager.go:167-235 | each of five maps has a key if and only if some delivered pod, on its own, shows the fact |
| PodRuns.SlotValues | manager/pod_manager.go:173-221 | each entry of these maps is what the first delivery showing the fact said: its clock reading, start time or creation time |
| PodRuns.RunTimeMeaning | manager/pod_manager.go:194-213 | the run time is the latest container start in the first Running delivery, missing if and only if nothing ran in it or there was none |
| PodRuns.OrderIndependence | manager/pod_manager.go:255-272 | the same pods in any order, with any clock and any other actions between, leave the same keys in these five maps |
| PodRuns.SuccessRateIndependence | manager/pod_manager.go:1338-1343 | so the success rate does not depend on the order |
| PodRuns.SuccessRateRange | manager/pod_manager.go:1338-1343 | it is within 0..100, and 100 if and only if DeploymentManager.IsStable holds |
| PodRuns.SuccessRateMeaning | manager/pod_manager.go:1338-1343 | the rate is the percentage, rounded down, of the names seen that were seen running, and 0 if none was seen |
| PodRuns.NeverOverwritten | manager/pod_manager.go:173-204 | no entry of these five maps, nor of runTimes, is overwritten or lost by any further actions |
| PodRuns.InitedOverwritten | manager/pod_manager.go:222-231 | exactly when an existing entry of cInitedTimes is overwritten, and by what |
| PodRuns.InitedDoesChange | manager/pod_manager.go:222-231 | two runs in which an existing entry changes: back to the scheduled time, and to the zero time |
| PodRuns.InitedKeys | manager/pod_manager.go:203-231 | the ninth map has a key if and only if a Pending delivery lists PodInitialized, or the pod was seen scheduled before its first Running delivery and that one has a running container |
| PodRuns.InitedValues | manager/pod_manager.go:203-231 | what each entry of the ninth map is: after a late delivery the scheduled or the zero time, otherwise the reading of the first delivery that lists PodInitialized, otherwise the scheduled time |
| PodRuns.InitedOrderIff | manager/pod_manager.go:203-231 | a pod has the key in every order of the same deliveries or in none if and only if a Pending one lists PodInitialized, or none is seen scheduled, or no Running one has a running container |
| PodRuns.InitedDependsOnOrder | manager/pod_manager.go:203-210 | an instance of the other case: two orders of two deliveries that differ in the key |
| PodRuns.LivePods | manager/pod_manager.go:714-729 | podNs holds exactly the pods created and not deleted since |
| PodRuns.NamespaceOf | manager/pod_manager.go:414-416 | each in the namespace of its last CREATE |
| PodRuns.ApiLog | manager/pod_manager.go:404-412 | the latencies of the CREATE and of the DELETE calls are recorded one by one, in order |
| PodRuns.PodsStable | manager/pod_manager.go:769-774 | with unique names and only this run's pods seen, IsStable if and only if every created pod was seen running |
| PodRuns.GeneratedPodsStable | manager/pod_manager.go:769-774 | generated names with distinct (operation, goroutine) pairs give that uniqueness |
| PodRuns.DeploymentsStable | manager/deployment_manager.go:484-490 | stable if and only if some pod was seen and each pod seen was seen running |
| PodClock.AnyOrder | manager/pod_manager.go:181-233 | with conditions listed in order, any order of the handlers gives first <= scheduled <= initialized and first <= ready, each with the one before it |
| PodClock.EndsInOrderIff | manager/pod_manager.go:181-233 | scheduled <= ready and initialized <= ready hold if and only if the first Running delivery was not handled, with a strictly earlier reading, before the first delivery that shows the pod scheduled |
| PodClock.InOrder | manager/pod_manager.go:181-233 | Pending before Running leaves no pod scheduled late, so both inequalities hold |
| PodClock.LateDelivery | manager/pod_manager.go:215-234 | a run in which it was, so the inequalities fail |
| PodClock.RoundSum | manager/pod_manager.go:1173-1196 | for any four times in any order, the three microsecond-rounded parts differ from the rounded whole by at most one microsecond |
| PodClock.PhasesAddUp | manager/pod_manager.go:1173-1196 | so the three client phases of a pod add up to its first-to-ready latency within one microsecond, in every run and every order |
| LatencyStats.GatherSamples | manager/pod_manager.go:1147-1203 | whichever order the keys come in, each value occurs as often as there are pods in both maps with that latency |
| LatencyStats.SortedUnique | manager/pod_manager.go:1205-1224 | a multiset of samples has one sorted order, so the unstable library sort is determined |
| LatencyStats.SortBag | manager/pod_manager.go:1205-1224 | sorting neither loses nor invents samples |
| LatencyStats.MetricOrder | manager/pod_manager.go:1228-1236 | min <= mid <= p99 <= max, all are samples, and min and max bound every sample |
| LatencyStats.MetricCounts | manager/pod_manager.go:1228-1236 | at most a hundredth of the samples exceed p99 and more than a hundredth reach it; more than half are within the median |
| LatencyStats.MetricIgnoresOrder | manager/pod_manager.go:1147-1236 | two visits of the map in different orders give the same figures |
| LatencyStats.Summarize | manager/pod_manager.go:1147-1236 | the figures of one phase, and that they are missing only if no pod is in both maps |
| LatencyStats.SummaryIsUnique | manager/pod_manager.go:1147-1236 | the state determines the figures of a phase |
| LatencyStats.CalculateLatencies | manager/pod_manager.go:1134-1329 | the figures of the ten phases, of which the next row says what they are; negRes is set if and only if some pod was ready half a microsecond or more before its creation time |
| LatencyReports.ReportMeaning | manager/pod_manager.go:1147-1329 | each figure of the ten phases is the delay of some pod, in the right direction and rounded where it is; minimum and maximum bound all delays; figures are missing only without such pods |
| LatencyStats.NoNegativeLatency | manager/pod_manager.go:1173-1196 | no client latency up to initialized nor first-to-ready is negative in any order of events; nor is initialized-to-ready if no pod was scheduled late |
| LatencyStats.NegativeIff | manager/pod_manager.go:1278-1286 | the test on median and minimum finds a negative figure if and only if some pod has a negative latency |
| LatencyStats.NoNegativeFigure | manager/pod_manager.go:1278-1329 | all figures of a phase are in order from zero up if and only if no pod has a negative latency |
| LatencyReports.NoNegativeReport | manager/pod_manager.go:1134-1329 | so what is reported of any run has no negative client figure, the last phase under the condition above |
| Throughput.GroupByOperation | manager/pod_manager.go:1102-1116 | each operation gets its pods' latencies with multiplicity; the total latency is the sum over all groups, the pod count is that of the groups and of the pods with a readable number; it panics if and only if some name does |
| Throughput.TotalLatency | manager/pod_manager.go:1107-1116 | the total latency is the sum of the times from first to ready over the pods counted |
| Throughput.GeneratedCounted | manager/pod_manager.go:1101-1116 | with generated names nothing panics and every ready pod is counted |
| Throughput.GeneratedGroups | manager/pod_manager.go:1101-1116 | and each operation's group holds exactly the latencies of the pods it generated |
| Throughput.Totals | manager/pod_manager.go:1118-1129 | the sums over all operations of the medians and of half the pods rounded up, in any order of the map |
| Throughput.MedianMeaning | manager/pod_manager.go:1123-1127 | the median summed is a sample with more than half of the samples within it and at least half reaching it |
| Throughput.TotalsIgnoreOrder | manager/pod_manager.go:1101-1132 | any two groupings of the same maps give the same total latency, pod count, counted pods and sum of medians |
| Throughput.CountedPods | manager/pod_manager.go:1122-1129 | accPods lies between half the pods and half of pods plus operations, and at least that many pods were ready within their own operation's median |
| PmuIndex.ArchitecturePMU.ParseCoreJSONFile | pkg/waverunner/golden/ESX/WC/perfcounters.py:986-1059 | the loop files the events one after the other as AddAll does, from any earlier index |
| PmuIndex.IndexIsScan | pkg/waverunner/golden/ESX/WC/perfcounters.py:986-1059 | at every key, core holds the first usable event with that key and unusedCore all the others, in file order, as a linear scan finds them |
| PmuIndex.CoreByComponents | pkg/waverunner/golden/ESX/WC/perfcounters.py:993-1031 | under a tuple of components core has the first event of the file that is no offcore event, has a code of four characters and needs no "Any Thread", and nothing if there is none |
| PmuIndex.IndexByName | pkg/waverunner/golden/ESX/WC/perfcounters.py:993-1057 | under a name core has the last event of that name that gets in so, and unusedCore the last core event of that name that does not |
| PmuIndex.IndexLinked | pkg/waverunner/golden/ESX/WC/perfcounters.py:1025-1031 | looking up by name and then by the components found leads back to the same event |
| PmuIndex.NamesCovered | pkg/waverunner/golden/ESX/WC/perfcounters.py:986-1059 | a name is in one of the dictionaries if and only if a core event has it |
| PmuIndex.NamesPartitioned | pkg/waverunner/golden/ESX/WC/perfcounters.py:986-1059 | given unique names, each core event is found under its name in exactly one dictionary: in core if and only if it is the first usable one with its components |
| PmuIndex.UnusedOnly | pkg/waverunner/golden/ESX/WC/perfcounters.py:1010-1057 | components that only unused events have need the "Any Thread" bit or an event with several codes |
| PmuRequests.ProcessPMUEvent.ParseText | pkg/waverunner/golden/ESX/WC/perfcounters.py:1688-1710 | the flags of a request, or refusal at the first bad, unknown or repeated flag |
| PmuRequests.ProcessPMUEvent.ProcessCoreEvent | pkg/waverunner/golden/ESX/WC/perfcounters.py:1677-1727 | new registry and verdict; a request that fails syntax or look-up leaves the registry alone |
| PmuRequests.ProcessPMUEvent.VerifyCoreEvent | pkg/waverunner/golden/ESX/WC/perfcounters.py:1542-1590 | new registry and verdict after the identifier and duplicate checks, in that order |
| PmuRequests.ProcessPMUEvent.ProcessEvent | pkg/waverunner/golden/ESX/WC/perfcounters.py:1367-1387 | the same for any PMU, counting every request |
| PmuRequests.ProcessAll | pkg/waverunner/golden/ESX/WC/perfcounters.py:1794-1809 | the active events are the accepted ones, in the order of the requests |
| PmuRequests.AcceptedIff | pkg/waverunner/golden/ESX/WC/perfcounters.py:1411-1590 | a request is accepted if and only if it is well-formed and known, no earlier such request reserved its identifier, and no accepted one has its canonical key |
| PmuRequests.AcceptedUnlessSame | pkg/waverunner/golden/ESX/WC/perfcounters.py:1542-1590 | a well-formed known request with a fresh identifier is refused if and only if some accepted one resolved to the same six components with the same "u" and "k" |
| PmuRequests.FlagsIff | pkg/waverunner/golden/ESX/WC/perfcounters.py:1688-1710 | a text is read as certain flags if and only if its parts are pairs of these flags and values, none twice |
| PmuRequests.WantedIff | pkg/waverunner/golden/ESX/WC/perfcounters.py:1603-1664 | a request is well-formed and known if and only if it is a core request, spells well-formed flags, and a name it gives is in core |
| PmuRequests.WantMeaning | pkg/waverunner/golden/ESX/WC/perfcounters.py:1425-1496 | the components and the name that such a request resolves to, by name and by components |
| PmuRequests.AcceptedShape | pkg/waverunner/golden/ESX/WC/perfcounters.py:1590 | an accepted event's number is its position among all requests, and its fields are those resolved |
| PmuRequests.AlwaysSelected | pkg/waverunner/golden/ESX/WC/perfcounters.py:1564-1582 | every request that gets as far has an event select, so the name-only branches are dead |
| PmuRequests.AcceptedDistinct | pkg/waverunner/golden/ESX/WC/perfcounters.py:1411-1590 | any two accepted events differ in identifier, eventN and canonical key |
| PmuRequests.SameEventSameKey | pkg/waverunner/golden/ESX/WC/perfcounters.py:1460-1556 | a by-name and a by-components request for the same indexed event with the same u and k modifiers have the same key |
| PmuRequests.NeverBoth | pkg/waverunner/golden/ESX/WC/perfcounters.py:1555-1590 | so they are never both accepted, in any list of requests, over any event file |
| PmuRequests.NameRequest | pkg/waverunner/golden/ESX/WC/perfcounters.py:1603-1664 | the text "e:name" of an indexed event resolves to its components |
| PmuRequests.HexByte | pkg/waverunner/golden/ESX/WC/perfcounters.py:1390-1408 | "0x" and two hexadecimal digits are valid and have the value of the digits |
| PmuRequests.HexShape | pkg/waverunner/golden/ESX/WC/perfcounters.py:1390-1408 | which texts with "0x" in front are valid: two digits, or one behind an underscore or before a blank |
| PmuRequests.ComponentRequest | pkg/waverunner/golden/ESX/WC/perfcounters.py:1677-1727 | a text that spells an indexed event's components resolves to its name |
| PmuRequests.NameAndComponents | pkg/waverunner/golden/ESX/WC/perfcounters.py:1794-1809 | naming an event and spelling it out are never both accepted, at the level of the user's texts |
| PmuRequests.UnusedOnlyAccepted | pkg/waverunner/golden/ESX/WC/perfcounters.py:1516-1531 | a request whose components only unused events have would be accepted |
| PmuRequests.NeverUnusedOnly | pkg/waverunner/golden/ESX/WC/perfcounters.py:1516-1531 | no event file and no request lead to that branch |
| PmuRequests.CommandWords | pkg/waverunner/golden/ESX/WC/perfcounters.py:109-123 | split at its spaces, a command gives back the event and each component under its own option |
| PmuRequests.StartedAsPolled | pkg/waverunner/golden/ESX/WC/perfcounters.py:99-123 | an accepted event is started under the eventN by which it is polled |
| PmuRequests.CommandsDistinct | pkg/waverunner/golden/ESX/WC/perfcounters.py:99-123 | no two accepted events are started by the same command |
| PmuRequests.FormatAll | pkg/waverunner/golden/ESX/WC/perfcounters.py:1835-1845 | one command for each active event, in order |
| PmuRequests.CommandsOfRun | pkg/waverunner/golden/ESX/WC/perfcounters.py:204-208 | for every request list, the commands differ pairwise and each starts the event that is polled |
| PmuSampling.Vmkperf.Start | pkg/waverunner/golden/ESX/WC/perfcounters.py:179-197 | succeeds if and only if the event fits beside the running ones, and leaves nothing behind on failure |
| PmuSampling.StartBatch | pkg/waverunner/golden/ESX/WC/perfcounters.py:1880-1886 | the events of the longest fitting stretch from currMinIndex are running, and no others |
| PmuSampling.PollBatch | pkg/waverunner/golden/ESX/WC/perfcounters.py:1890-1896 | each event of the batch is polled once, while it and its batch are running |
| PmuSampling.Collect | pkg/waverunner/golden/ESX/WC/perfcounters.py:1868-1915 | a collection polls every event exactly once, in order, while running in a set that fits, and leaves the PMU idle |
| PmuSampling.BatchesSplit | pkg/waverunner/golden/ESX/WC/perfcounters.py:1868-1915 | the batches are consecutive, disjoint, non-empty and fitting, and cover all events |
| PmuSampling.GreedyStaysAhead | pkg/waverunner/golden/ESX/WC/perfcounters.py:1880-1886 | from any later start, greedy needs no more batches than any other fitting split |
| PmuSampling.FewestBatches | pkg/waverunner/golden/ESX/WC/perfcounters.py:1868-1915 | no split into consecutive fitting batches has fewer batches |
| PmuSampling.CollectionEnds | pkg/waverunner/golden/ESX/WC/perfcounters.py:1874-1915 | the loop gets through all events if and only if each can start on an idle PMU |
| PmuSampling.Sample | pkg/waverunner/golden/ESX/WC/perfcounters.py:1848-1918 | whatever time collections take: sampling stops after the given number of collections, or before the first one that would begin with the allotted time used up; each interval is cut to what is left; each collection makes the same split and polls each event once while it runs in a set that fits |
| PmuSampling.BudgetUsedUp | pkg/waverunner/golden/ESX/WC/perfcounters.py:1858-1866 | every allotted time is used up if and only if the clock goes on advancing during collections, whatever the interval |
| PmuSampling.LastingReaches | pkg/waverunner/golden/ESX/WC/perfcounters.py:1848-1918 | it is used up after at most as many collections as it has seconds, if batches last at least a positive interval |
| PmuSampling.ShorterOnlyLast | pkg/waverunner/golden/ESX/WC/perfcounters.py:1861-1866 | then only the last collection may use a shorter interval |
| PmuSampling.Overrun | pkg/waverunner/golden/ESX/WC/perfcounters.py:1852-1918 | the overrun is at most (B-1) intervals plus what the last collection takes on top of its intervals |
| PmuSampling.ExactTiming | pkg/waverunner/golden/ESX/WC/perfcounters.py:1852-1918 | with batches of exactly one interval, there are ceil(T / (B * I)) collections, and a single batch ends at exactly T |
| PmuSampling.SampleTiming | pkg/waverunner/golden/ESX/WC/perfcounters.py:1848-1918 | all of this for B the number of batches of the split that Sample makes, than which no fitting split has fewer: T <= elapsed <= T + (B-1) * I, ceil(T / (B * I)) collections, only the last interval shorter, exactly T if B = 1 |
| JsonFileOrder.FileList.Reorder | pkg/waverunner/golden/ESX/WC/perfcounters.py:716-719 | the loop ends although it changes the list it enumerates, with the list Reordered describes |
| JsonFileOrder.ReorderKeepsFiles | pkg/waverunner/golden/ESX/WC/perfcounters.py:716-719 | no file is lost or duplicated |
| JsonFileOrder.MatrixFirst | pkg/waverunner/golden/ESX/WC/perfcounters.py:713-719 | with any number of matrix files, one ends first if and only if one stood at index 0 or 1 |
| JsonFileOrder.SingleMatrix | pkg/waverunner/golden/ESX/WC/perfcounters.py:716-719 | a single matrix file moves from index m to m / 2 |
| JsonFileOrder.EverySecond | pkg/waverunner/golden/ESX/WC/perfcounters.py:716-719 | until a matrix file is come across, every second file ends up in the next place; the matrix file takes the place it is come across at |
| Driver.SizePools | util/testdriver.go:174-200 | each pool is the largest want of all operations for its manager, and there is none without a want |
| Driver.SizeForOperation | util/testdriver.go:178-199 | the same invariant, carried over one operation |
| Driver.RoutedAtMostFour | manager/pod_manager.go:686 | in a pool at least as large as wanted, each client gets at most four goroutines of a resource for the actions that go by the goroutine's number, all but CREATE |
| Driver.SmallestPool | util/testdriver.go:189 | a pool gives each client at most four if and only if it has at least the computed size |
| Driver.FairPools | util/testdriver.go:176-200 | so in the pools of a run, which are not empty wherever a goroutine runs |
| Driver.CreateTidIff | manager/pod_manager.go:378 | a CREATE goes by the goroutine's number if and only if the user label's key is not "tid" |
| Driver.CreatesSucceedIff | manager/pod_manager.go:378-379 | no CREATE panics on its client if and only if no user label sets "tid", or its value as a number has no negative remainder |
| Driver.FairCreatesIff | manager/pod_manager.go:378-379 | each client gets at most four CREATEs if and only if no user label sets "tid", or that panics, or there are at most four CREATEs |
| Driver.FairCreates | util/testdriver.go:176-200 | the same for the pools of a run |
| Driver.TidLabel | util/driver_util.go:395-397 | a label that sends a hundred CREATEs to one of 25 clients, and one that panics |
| Driver.Normalize | util/testdriver.go:202-209 | the expanded list, for any repeat counts, negative ones included, of which the next two rows say what it holds |
| Driver.ExpandAt | util/testdriver.go:202-209 | the 1 + max(0, RepeatTimes) copies of an operation fill a block, in order, that starts where those of the earlier ones end |
| Driver.ExpandLength | util/testdriver.go:202-209 | the length is the sum of 1 + max(0, RepeatTimes) |
| Driver.RunRound | util/testdriver.go:216-294 | one round continues the numbering and stops early only after the time limit is passed |
| Driver.RunRounds | util/testdriver.go:211-299 | over any number of rounds the k-th execution has number k and is operation k mod n; the run ends with the first execution past the limit |
| Driver.NamesNeverRepeat | util/testdriver.go:221 | in the log of a run no name is issued twice, of whatever kinds and prefixes |
| Driver.PodNamesNeverRepeat | util/testdriver.go:221 | in particular no pod name, with the prefixes of the executed operations |
| Goroutine.RunActions | util/driver_util.go:312-455 | what the loop of any kind issues and sleeps, in order, the resources whose YAML cannot be used included (util/driver_util.go:1063-1126) |
| Goroutine.GoroutineEffects | util/driver_util.go:323-452 | known actions in order with one CREATE if and only if the first one is usable, and a prefix of the sleep times, one for each action not skipped |
| Goroutine.KeptCreates | util/driver_util.go:1063-1086 | of all CREATEs only the first is ever kept, and only if its YAML can be used |
| Goroutine.KeptAre | util/driver_util.go:329-344 | the actions not skipped are, in their order, all that are no CREATE and the first CREATE if it is usable |
| Goroutine.EffectsSnoc | util/driver_util.go:446-451 | an action's effects come behind those of all earlier ones, its sleep behind its own call |
| Barrier.Reachable | util/driver_util.go:59-62 | in every interleaving the counter is the number of goroutines added and not done, and all earlier operations are finished |
| Barrier.AlwaysOneCreate | util/driver_util.go:323-452 | at any time of any interleaving a goroutine has issued at most one CREATE and slept a prefix of its sleep times |
| Barrier.OperationsDoNotOverlap | util/testdriver.go:247 | once the driver is past an operation, every goroutine of it and of all earlier ones has finished with its full log |
| Barrier.LaterNotStarted | util/testdriver.go:216-247 | no goroutine of a later operation has started |
| Barrier.Progress | util/testdriver.go:247 | as long as the driver has not ended, some step that does not panic is possible, in every interleaving |
| Barrier.RunsEnd | util/testdriver.go:216-247 | no run is longer than the steps that the driver and the goroutines have |
| Barrier.CanEnd | util/testdriver.go:216-247 | every run that has not panicked can be continued to one that ends |
| Barrier.EndedIsComplete | util/testdriver.go:247 | and in a run that has ended every goroutine is finished, with its whole log |
| Barrier.PanicExactly | util/driver_util.go:59-62 | a step makes the wait group panic if and only if it is the wg.Done, between some "go" and its wg.Add, of the only goroutine not finished yet |
| Barrier.CanPanicIff | util/driver_util.go:59-62 | some interleaving panics if and only if some operation has a goroutine |
| Barrier.NoPanic | util/driver_util.go:59-62 | none panics in which each Add precedes its goroutine's Done |
| Barrier.EarlyDoneHarmless | util/driver_util.go:244-247 | which is more than is needed: a run that breaks that rule and does not panic |
| Barrier.EarlyDonePanics | util/driver_util.go:59-62 | the shortest panic of a pod goroutine with one action |
| Waits.WaitForPodRelatedOps | util/driver_util.go:1142-1215 | the wait is the time of the failed polls, and ends at the first poll that succeeds or once the timeout is reached; deletion is forced if and only if all polls that fit the timeout, and one more, still see pods |
| Waits.WhichWaits | util/driver_util.go:1154-1188 | when the first poll fails, time is waited if and only if the last action is a DELETE, or a CREATE of a kind with a manager, in any case of letters |
| Waits.PollUntil | util/driver_util.go:1190-1212 | all polls before the end failed, each below the timeout, and the end has one of the two reasons |
| Waits.WaitAfterOperation | util/testdriver.go:256-286 | with a configured timeout and interval of at least a second each, and 1000000 and 3000 ms for others: each later call is made if and only if the waits before it stay below the timeout, and the warning is logged if and only if the total reaches it |
| Waits.WaitBound | util/driver_util.go:1161-1173 | one call waits a multiple of the interval, at most R, the timeout rounded up to whole intervals |
| Waits.ChainBound | util/testdriver.go:269-282 | all calls together wait a multiple of the interval, at most 2R - interval |
| Waits.ChainBoundMet | util/testdriver.go:269-282 | for every timeout and interval that bound is met |
| Waits.TimeoutIsLongest | util/testdriver.go:269-282 | the timeout is the longest wait after an operation, whatever the polls see, if and only if it equals the interval |
| Labels.GetListOptions | manager/manager.go:145-167 | the selector the branches build |
| Labels.LabelMap.Label | util/driver_util.go:331-397 | the labels and the namespace of an object read from YAML, from those of the file, of the action and of the configuration |
| Labels.GenLabels | util/spec_generator.go:33-41 | the labels of a generated object are those of one read from YAML without labels |
| Labels.SelectorMeaning | manager/manager.go:145-167 | for any query and object: without filter a match is by name, else by exactly the labels asked for, the standard ones replacing a user label with their key |
| Labels.GoroutinesDisjoint | manager/manager.go:150-152 | MatchGoroutine queries of different goroutines never select the same object, whatever its labels |
| Labels.SelectsIntended | util/spec_generator.go:33-41 | with unreserved user keys a query selects a created object if and only if user label, goroutine and operation agree as far as asked |
| Labels.SelectsOwnName | manager/manager.go:158-161 | without filter a query selects exactly the objects of its own kind and prefix, operation and goroutine |
| Labels.SelectsOwnPod | manager/manager.go:158-161 | for pods: exactly those of its own user prefix, operation and goroutine |
| Labels.ExactIffHarmless | util/driver_util.go:393-397 | queries by goroutine and operation are exact for an object if and only if its user label leaves app, opnum and tid as they are |
| Labels.InformerSees | manager/pod_manager.go:242-250 | the informer sees a created pod if and only if its user label leaves app and type as they are |
| Predicates.LongRoundTrip | util/predicate.go:239-250 | a printed long path is read back, for all slash-free parts and all optional ones |
| Predicates.ShortRoundTrip | util/predicate.go:251-262 | a printed short path is read back if and only if its text does not hold "namespaces"; otherwise it is refused |
| Predicates.ReadingIsStable | util/predicate.go:233-274 | every accepted path has slash-free parts, and printing and reading them again gives the same parts |
| Predicates.FormatsDisjoint | util/predicate.go:239-262 | no text is a path in both formats |
| Predicates.Verdicts | util/predicate.go:161-189 | "contains" and "!contains" give the truth about occurrence and its opposite, for any output and text, colons included |
| Predicates.GetListOptions | util/predicate.go:276-291 | the filters of a label list, or the panic |
| Predicates.LabelListRoundTrip | util/predicate.go:276-291 | a printed label list is read back, the last value of a key winning and "oid" meaning "opnum" |
| Predicates.LabelsFail | util/predicate.go:279-286 | reading panics if and only if some piece has no "=" |
| Predicates.HandlePredicate | util/predicate.go:40-61 | true if and only if some check at a time below the timeout passes |

## Left out

- All calls of client-go, remote execution, `vmkperf` and `vsish` processes, downloads and file access: their outcomes are parameters.
- float32 rounding, scaling to milliseconds and the division by a zero pod count (NaN): durations are whole nanoseconds, and the average and throughput quotients are not formed.
- Object look-up inside Delete, the API call of a forced deletion, DeleteAll, and the other managers' create, list, get, update and scale bodies.
- The API calls behind the actions of deployments, stateful sets, services, replication controllers, namespaces and generic resources; their action loops differ from that of pods only in the known actions and in the CREATE that is given up, both of which are parameters.
- Labels.GenLabels: stands for the same map built in each generator of `util/spec_generator.go`; label syntax validation by Kubernetes is not modelled.
- PodTimeline.PodManager.UpdateBeforeDeletion: the field selector of the event listing is not modelled; the listing is any list of events.
- PodTimeline.PodManager.Create: the creation of namespaces and the set of created ones. Its two locked updates are one step.
- PodTimeline.PodManager.Delete: one pod of those listed; its three locked updates are one step.
- LatencyStats.CalculateLatencies: float32 milliseconds.
- Driver.RunRounds: terminates because the clock passes a positive or negative time limit at some point; with a positive limit and no operations the source loops for ever, which the precondition excludes. Predicates and waits of an operation only take time here.
- Barrier.Reachable: the goroutines of an operation's kinds form one list in spawning order.
- Goroutine.RunActions: an issued action stands for its whole API call, and failures only draw a log line, as in the source; type assertions on decoded YAML do not fail.
- Waits.WaitForPodRelatedOps: what a poll sees is a parameter, so that polls of deletion and of stability are alike.
- PmuSampling.Vmkperf.Start: whether events fit depends on the set of running events only, and starting one that is already running is not modelled as an error; the commands of a run are distinct (`PmuRequests.CommandsOfRun`).
- PmuSampling.Sample: without a number of samples the clock passes the allotted time at some point, and a run with neither, which only a signal ends, is not modelled; a lone event that cannot start makes the source loop for ever, which the precondition excludes and PmuSampling.CollectionEnds describes.
- PmuIndex.ArchitecturePMU.ParseCoreJSONFile: the display order kept by `move_to_end`, and the fields only printed.
- PmuRequests.ProcessPMUEvent.ParseText: letters beyond ASCII, and digits and blanks beyond ASCII in `int(text, base=16)`.
- PmuRequests.CommandWords: components that hold a space, which a hexadecimal text may end in, and the quoting rules of the shell splitter.
- PmuRequests.ProcessPMUEvent.ProcessEvent: warnings and error texts, and the origin of a request, which only appears in them.
- Labels.GetListOptions: lower-casing beyond ASCII.
- The decision table of checkPredicateOk and the commands it runs, locally or in containers.
- Argument parsing of the PMU script, its output formatting, the uncore and offcore files, and `WaveCounter.py`.
- Sorting of operations in `cmd/kbench.go`, Wavefront and Prometheus output, shell scripts and configuration files.
