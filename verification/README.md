# Verified models of the device-connector emulator

This project models the state machines inside the emulator of Cisco device connectors and proves
what they keep over whole runs:

- **Inventory replication** (`Inventory*.dfy`, `CommonInventory.dfy`): a collector reports objects, a
  diff cache decides what to send, objects whose relationship targets are not cached yet are parked
  and retried in place, a full collection ends with a sweep, and the output is cut into batches. The cloud's
  copy is a fold over the messages, and it is related to the cache after every report of every run.
- **Deduplicating async worker** (`AsyncModel.dfy`, `AsyncAnswers.dfy`, `AsyncWork.dfy`): two goroutines over
  a dedup map, a bounded queue and an output, in every interleaving of their atomic steps.
- **Operation reconciler** (`OperationsModel.dfy`, `Operations.dfy`, `Sorting.dfy`): polls that turn a
  set of configurations into running operations, met in any map order.
- **Object store** (`XmlTree.dfy`, `XmlParse.dfy`, `XmlStore.dfy`, `ClassQuery.dfy`, `ClassCache.dfy`,
  `ClassWrites.dfy`, `XmlDb.dfy`): flattening a tree into a table keyed by distinguished name, prefix search,
  recursive resolution, per-device overlays, class queries with what they write back into configurations, and a
  class cache shared by all devices.
- **Unified ports** (`NetworkPorts.dfy`, `NetworkAgent.dfy`): ports moved between two lists by swap-remove.
- **Redfish** (`RedfishModel.dfy`, `Redfish.dfy`): server paging composed with the client's nextLink loop,
  recursive merge, and naming of new members.
- **Emission loops** (`StreamModel.dfy`, `StreamBatches.dfy`, `Stream.dfy`, `FlowControl.dfy`, `PtyModel.dfy`,
  `Command.dfy`): stream batches, flow-control windows and terminal output.
- **IOM ports** (`Chassis.dfy`): the triangle wave that numbers the ports of an I/O module.

Where the source updates objects in loops, the model is a class whose methods are proved equal to
functions on values; what the system promises is then proved about those functions, for all inputs and
all runs. Two goroutines become one method per atomic step, and a schedule chooses the interleaving.
SHA-256, hexadecimal printing, JSON parsing of a configuration and `fmt.Sprint` are parameters of the
model; the order in which Go ranges over a map is arbitrary everywhere. `dafny verify dfyconfig.toml`
checks everything.

## What the proofs show about the code

- A diff never reports a removed property (`InventoryReplica.DiffMissesRemovals`), and a property that
  appears with a nil value is not reported either (`InventoryReplica.DiffRestoresNew`).
- A report that deletes the key of a parked object can leave the cloud without an object the cache holds
  (`InventoryStream.DeleteOfParkedDiverges`). With one relationship per object it happens if and only if the
  report deletes a cached key that a parked object puts back within the passes made and that a full end does not
  sweep (`InventoryStream.ReportAgreesIff`, `InventoryStream.PutsBackIff`). A full end deletes a key it also upserts
  if and only if a parked object that resolves was not reported in the cycle (`InventoryStream.FullEndSweepsIff`),
  which takes a report of an unrecognised type (`InventoryStream.UnrecognisedReportBreaksSweep`). The collector in
  the repository sends neither deletes nor other report types, so the runs it feeds have neither problem
  (`InventoryCollector.CollectedReplicaAgreement`).
- The retry makes as many passes as there are parked types. An object resolves at all if and only if no path of
  targets from it has a cycle or ends in a reference to nothing (`InventoryFixpoint.SettledIff`); it needs one pass
  plus one for each step of the longest such path to an object that does not stand earlier in the list
  (`InventoryFixpoint.WithinIffBounded`). The retry caches everything that resolves if and only if all these paths
  fit in the passes made (`InventoryFixpoint.RetryReachesFixpointIff`). References to lower-ranked types always do
  (`InventoryFixpoint.RankedReachesFixpoint`); two parked objects of one type need not
  (`InventoryFixpoint.SameTypeChainStops`).
- With several relationships on one object the retry produces it before a target, if and only if some relationship
  resolves and some does not (`InventoryCompaction.ProducedEarlyIff`), and its in-place compaction can write past
  the end of the slice: if no object has both kinds, if and only if the writes get ahead of the reads somewhere
  (`InventoryCompaction.OverrunIff`); with at most one relationship it never does
  (`InventoryCompaction.OverrunNeedsTwo`). The source's TODO at
  `dcSpewer/plugins/commoninventory.go:580` covers only the single-relationship case.
- A collection that reports a key more than once need not end with the last report cached: an object that waited
  replaces whatever was cached under its key in the meantime (`InventoryCycle.OlderReportWins`).
  `InventoryCycle.CycleCaches` says for every key which report is cached in the end.
- A relationship to a peer identified by a number never resolves: the selector is printed with `%s`
  (`dcSpewer/plugins/commoninventory.go:352`), which prints a complaint about the type
  (`InventorySelectors.NumberNeverNamed`).
- The comment at `dcSpewer/plugins/commoninventory.go:69-71` shows a selector in double quotes; the code
  prints and trims single quotes, and the model follows the code.
- A restart that fails keeps the old digest recorded, so going back to the old configuration starts nothing
  although the header says it runs (`OperationsModel.FailedRestartThenRevert`). The overall digest covers the
  digests in name order but not the names (`OperationsModel.SameHeaderIff`).
- Resolving an object with its children repeats a descendant once for every chain of stored objects down to
  it, 2 to the power n - 1 times at depth n (`XmlStore.DescendantsRepeat`).
- The class cache stores payloads that show one device's configuration or children, because its guard looks
  at a device's configurations only when the device has added objects
  (`dcSpewer/plugins/xmlapi.go:83`) and hierarchical answers are stored too
  (`dcSpewer/plugins/xmlapi.go:568`). `ClassCache.QueryKeepsValidIff` is the exact condition; with the guard of the
  look-up before storing as well, no run without hierarchical queries stores such a payload
  (`ClassCache.RepairedGuard`).
- A class query writes into a device's stored configurations (`dcSpewer/plugins/xmlapi.go:200-213`, `:269-270`,
  `:305-338`): an object that exists only as a configuration is handed out as the stored map, so its children are
  nested in it, and the other objects of the class are appended to it when it is the first one found.
  `ClassCache.QueryLeavesConfigsIff` says exactly when nothing changes. The failing input: a device adds two objects
  to a class without stored ones and asks for the class twice; the second answer has the second object twice, and
  the answer after n queries has it n + 1 times (`ClassCache.AnswersGrow`).
- A start request for a stream that was closed but has not ended yet is swallowed
  (`StreamModel.StartOpensIff`).
- A terminal session closed by anyone but its reader can end with output unwritten
  (`PtyModel.ClosedEarlyLoses`): exactly what is still handed over or with the reader (`PtyModel.WrittenIff`).

## Model

| member | source | states |
|---|---|---|
| InventoryReplica.DiffKeepsKey | dcSpewer/plugins/commoninventory.go:817-883 | a diff takes every property from the new object and has the new object's key |
| InventoryReplica.DiffIsMinimal | dcSpewer/plugins/commoninventory.go:817-883 | without nil values nothing is reported if and only if the old object agrees already, and a diff repeats no unchanged property but identities |
| InventoryReplica.DiffRestoresNew | dcSpewer/plugins/commoninventory.go:817-883 | merging the diff into any copy of the old object gives a copy of the new one if and only if no nil-valued, non-identity property is new |
| InventoryReplica.DiffMissesRemovals | dcSpewer/plugins/commoninventory.go:817-883 | without nil values, old object plus diff equals the new object if and only if no property was removed |
| InventoryReplica.BatchesReceived | dcSpewer/plugins/commoninventory.go:764-801 | repeating the deletes in every batch does no harm: the batches act as the upserts followed by the deletes, for a receiver applying upserts first, and for one applying deletes first when no upserted key is deleted |
| InventoryReplica.ReportMirrors | dcSpewer/plugins/commoninventory.go:657-809 | after one report, whatever the relationships, the replica of a receiver applying upserts first agrees with the cache if and only if no key that the report deleted is cached afterwards |
| InventoryReplica.StepSweeps | dcSpewer/plugins/commoninventory.go:726-762 | exactly the swept keys leave the cache, and the deletes sent name them together with the report's own |
| InventoryCompaction.VisitOutcome | dcSpewer/plugins/commoninventory.go:565-599 | for any property order, one relationship is either found or written once; when nothing resolves the object is written once per relationship |
| InventoryCompaction.ProducedEarlyIff | dcSpewer/plugins/commoninventory.go:565-599 | a visit produces an object that has an unresolved target if and only if some relationship resolves and some does not |
| InventoryCompaction.SinglePass | dcSpewer/plugins/commoninventory.go:555-602 | with one relationship per object, overwriting the list while ranging over it keeps what a pass over the original list keeps, whatever the property order |
| InventoryCompaction.ReprocessIsRetry | dcSpewer/plugins/commoninventory.go:536-608 | with one relationship per object all in-place passes together are the ideal retry |
| InventoryCompaction.PassesPut | dcSpewer/plugins/commoninventory.go:536-608 | whatever the relationships, the retry only caches and produces parked objects, in full, and only keeps parked ones |
| InventoryCompaction.PassOverruns | dcSpewer/plugins/commoninventory.go:555-602 | when nothing resolves, a pass writes past the end of its list if and only if some object has two relationships |
| InventoryCompaction.OverrunIff | dcSpewer/plugins/commoninventory.go:555-602 | when the first visit that takes the writes past the reads is of an object none of whose relationships resolves, a pass over any list overruns if and only if there is such a visit, counted on the list as it was |
| InventoryCompaction.StuckOverruns | dcSpewer/plugins/commoninventory.go:555-602 | whatever else resolves, a pass overruns once the visit of an object without a resolved relationship takes the writes past the next position read |
| InventoryCompaction.OverrunStarts | dcSpewer/plugins/commoninventory.go:555-602 | a pass overruns only after a visit that takes the writes past the next position read, of an object with two unresolved relationships |
| InventoryCompaction.OverrunNeedsTwo | dcSpewer/plugins/commoninventory.go:555-602 | with at most one relationship per object no pass overruns |
| InventoryFixpoint.RoundsCacheExactly | dcSpewer/plugins/commoninventory.go:536-608 | n passes over any list cache exactly the keys that resolve within n passes, and leave exactly the other objects parked, in order |
| InventoryFixpoint.RoundsProduceExactly | dcSpewer/plugins/commoninventory.go:536-608 | and they produce exactly the objects that leave the list, each as often as it stands there |
| InventoryFixpoint.RetryReachesFixpointIff | dcSpewer/plugins/commoninventory.go:536-608 | with one relationship per object the code's retry caches exactly the keys that resolve within as many passes as parked types; with one object per key that is the least fixpoint if and only if every path of targets from an object that resolves at all needs at most that many: one plus its steps to an object that does not stand earlier |
| InventoryFixpoint.WithinIffBounded | dcSpewer/plugins/commoninventory.go:536-608 | an object resolves within n passes if and only if no path of targets from it needs more than n or ends in a reference to nothing |
| InventoryFixpoint.SettledIff | dcSpewer/plugins/commoninventory.go:536-608 | an object resolves within some number of passes if and only if no path of targets from it has a cycle or ends in a reference to nothing; then as many passes as objects do |
| InventoryFixpoint.RankedReachesFixpoint | dcSpewer/plugins/commoninventory.go:536-608 | with a type ranking and one relationship per object the code's retry caches exactly the least fixpoint of resolvable objects, and an object stays parked if and only if that fixpoint does not resolve it |
| InventoryFixpoint.SameTypeChainStops | dcSpewer/plugins/commoninventory.go:542-553 | two parked objects of one type, the first referring to the second and that one to a cached object: the one pass made leaves the first out |
| InventorySelectors.SelectorNames | dcSpewer/plugins/commoninventory.go:612-637 | a selector on a one-word property names the key of a peer identified by it alone if and only if the printed value holds no separator and reads back as shown in the key |
| InventorySelectors.SelectorRoundTrip | dcSpewer/plugins/commoninventory.go:612-637 | for a string-valued, one-word property: if and only if the value holds no separator and no quote at either end |
| InventorySelectors.NumberNeverNamed | dcSpewer/plugins/commoninventory.go:350-354 | for an integer or float property the printed selector never names the peer |
| InventorySelectors.BuildSelector | dcSpewer/plugins/commoninventory.go:350-354 | the selector string is the one of the last selector entry |
| InventoryStream.ReachableInvariant | dcSpewer/plugins/commoninventory.go:641-812 | in every reachable state parked objects have keys reported in this cycle and cached objects sit under their own keys |
| InventoryStream.FullEndSweeps | dcSpewer/plugins/commoninventory.go:726-762 | a full end keeps exactly the cached keys reported in the cycle and deletes no key it upserts |
| InventoryStream.FullEndSweepsIff | dcSpewer/plugins/commoninventory.go:726-762 | with at most one relationship per object, a full end deletes no key it upserts if and only if every parked object that resolves within the passes made was reported in the cycle |
| InventoryStream.UnrecognisedReportBreaksSweep | dcSpewer/plugins/commoninventory.go:716-762 | an object parked by a report of another type is upserted and deleted by the same full end |
| InventoryStream.ReplicaAgreement | dcSpewer/plugins/commoninventory.go:641-812 | after any run of admissible reports, with any number of relationships, folding all messages gives a replica with exactly the cached keys that agrees on every cached property, for a receiver applying upserts or deletes first |
| InventoryStream.ReportAgreesIff | dcSpewer/plugins/commoninventory.go:657-809 | with at most one relationship per object the replica agrees after a report if and only if no cached key it deletes is put back within the passes made by a parked object and kept by the sweep |
| InventoryStream.PutsBackIff | dcSpewer/plugins/commoninventory.go:536-608 | with one parked object per key, an uncached key is put back if and only if no path of targets from its object needs more passes than parked types or ends in a reference to nothing |
| InventoryStream.DeleteOfParkedDiverges | dcSpewer/plugins/commoninventory.go:702-724 | deleting the key of a parked object that resolves leaves the replica without an object the cache holds |
| InventoryStream.TargetsComeFirst | dcSpewer/plugins/commoninventory.go:664-721 | with at most one relationship per object, in the output of any report each object comes after the targets of its relationships |
| InventoryStream.BatchesWellCut | dcSpewer/plugins/commoninventory.go:764-801 | batches hold at most 100 upserts, concatenate to the report's upserts, and only the last carries the report's own type |
| InventoryStream.StreamGrammar | dcSpewer/plugins/commoninventory.go:641-812 | the message types of any run fed by the collector's cycles are a prefix of fullStart fullSegment* fullEnd incremental* |
| InventoryIngest.IngestParksExactly | dcSpewer/plugins/commoninventory.go:663-711 | exactly the keyed upserts with an unresolved target when they are met are parked, in order, behind what was parked; the keys of the others are cached for those that follow |
| InventoryIngest.IngestCachesLast | dcSpewer/plugins/commoninventory.go:697-708 | without nil values the object cached for a key has every property of its last upsert that was not parked; other cached objects are as before |
| InventoryIngest.IngestSilentIff | dcSpewer/plugins/commoninventory.go:697-708 | without nil values nothing is sent for some upserts if and only if each that is not parked agrees with what is cached, and then the cache is as before |
| InventoryIngest.DiscardsExactly | dcSpewer/plugins/commoninventory.go:713-724 | exactly the keys the deletes name leave the cache, and one delete is passed on for each of them that was cached |
| InventoryCycle.CycleKeys | dcSpewer/plugins/commoninventory.go:641-812 | with at most one relationship per object, after a collection exactly those reported keys are cached that were cached before, accepted, or resolve within the passes the full end makes; nothing is left parked |
| InventoryCycle.CycleCaches | dcSpewer/plugins/commoninventory.go:641-812 | and what is cached for a reported key is the waiting object the retry put there last; if none, one with every property of the last accepted report; if none of these either, what was cached before |
| InventoryCycle.CycleCachesReports | dcSpewer/plugins/commoninventory.go:641-812 | so with one report per key, an object that was accepted or resolves in time is what is cached, and any other leaves its key as it was |
| InventoryCycle.CollectedCycle | dcSpewer/plugins/commoninventory.go:410-466 | in any run fed by the collector the reports of one collection are such a cycle |
| InventoryCycle.RepeatSendsNothing | dcSpewer/plugins/commoninventory.go:657-809 | once the first collection is through, reporting only what is cached already sends nothing and changes nothing |
| InventoryCycle.OlderReportWins | dcSpewer/plugins/commoninventory.go:565-599 | a parked object that resolves replaces whatever is cached under its key, also an object reported later |
| InventoryCollector.CollectType | dcSpewer/plugins/commoninventory.go:434-463 | a type's 100 objects are reported exactly once and in order, for any number of types |
| InventoryCollector.CollectInventory | dcSpewer/plugins/commoninventory.go:410-466 | one cycle reports every object of every type once, from a full start to a full end unless there are no types, for any map order; its reports are one collection in the sense of the cycle theorems |
| InventoryCollector.CollectedStreamGrammar | dcSpewer/plugins/commoninventory.go:410-466 | stopped anywhere in any number of cycles, the messages form a prefix of fullStart fullSegment* fullEnd incremental* |
| InventoryCollector.CollectedReplicaAgreement | dcSpewer/plugins/commoninventory.go:410-466 | stopped anywhere in any number of cycles of objects without nil values, the replica agrees with the cache |
| InventoryCollector.StreamDelegate | dcSpewer/plugins/commoninventory.go:497-509 | a stream is refused exactly when it lists no object type; otherwise 100 objects of each are made and the first cycle ends with a full end |
| CommonInventory.DiffCache.Keys | dcSpewer/plugins/commoninventory.go:274-285 | every cached key once, in any order |
| CommonInventory.Inventory.ConstructKey | dcSpewer/plugins/commoninventory.go:887-947 | the key of the object, or the error cases |
| CommonInventory.Inventory.ResolveRelationship | dcSpewer/plugins/commoninventory.go:612-637 | whether the selector names a cached key |
| CommonInventory.Inventory.RelationsResolve | dcSpewer/plugins/commoninventory.go:674-695 | whether every reference of every property resolves, whatever the property order |
| CommonInventory.Inventory.CalculateDiff | dcSpewer/plugins/commoninventory.go:817-883 | the properties reported as changed with the identity properties, or none |
| CommonInventory.Inventory.Ingest | dcSpewer/plugins/commoninventory.go:663-711 | cache, parked list and upserts after a report's upserts are those of the model, which parks, caches and sends exactly what the InventoryIngest lemmas say |
| CommonInventory.Inventory.Discard | dcSpewer/plugins/commoninventory.go:713-724 | cache and deletes after a report's deletes are those of the model, characterised by DiscardsExactly |
| CommonInventory.Inventory.RetryProperties | dcSpewer/plugins/commoninventory.go:565-599 | the writes into the parked list, the cache and the overrun for one object and one property order |
| CommonInventory.Inventory.RetryPass | dcSpewer/plugins/commoninventory.go:555-602 | one pass compacts the parked list in place as the model of the pass says, or overruns |
| CommonInventory.Inventory.ReProcessMissingRelations | dcSpewer/plugins/commoninventory.go:536-608 | the passes over the list in place, for any relationships and property orders; they do not overrun with at most one relationship per object, and do when nothing resolves and some object has two |
| CommonInventory.Inventory.Sweep | dcSpewer/plugins/commoninventory.go:748-760 | unreported keys leave the cache and are appended to the deletes |
| CommonInventory.Inventory.SendBatches | dcSpewer/plugins/commoninventory.go:770-801 | the messages are the batches of the model |
| CommonInventory.Inventory.ProcessReport | dcSpewer/plugins/commoninventory.go:657-809 | new state and messages of one report, or the overrun of its retry |
| CommonInventory.Inventory.ProcessInventory | dcSpewer/plugins/commoninventory.go:641-812 | the loop over any reports is a run of the model from a fresh state, up to the report whose retry overruns; with at most one relationship per object none does |
| AsyncModel.Capacity | dcSpewer/plugins/asyncWork.go:107-123 | the queue holds as many units as asked for, 50 when that is 0, and 200 when it is more; making it fails if and only if the requested size is negative |
| AsyncModel.EveryInterleaving | dcSpewer/plugins/asyncWork.go:115-237 | in every interleaving the dedup map is exactly the distinct keys executing, queued or pending, the queue is bounded, execution is in acceptance order, every unit is accounted for, and results carry their units' keys |
| AsyncModel.StepKeepsInvariant | dcSpewer/plugins/asyncWork.go:130-237 | each atomic step of either goroutine, and a cancellation, keeps all of it |
| AsyncModel.DroppedIffPending | dcSpewer/plugins/asyncWork.go:210-218 | a unit is dropped if and only if one with its key is executing, queued or pending |
| AsyncModel.RefusedOnlyWhenFull | dcSpewer/plugins/asyncWork.go:220-232 | a unit is refused only when the queue is full of units with other, distinct keys |
| AsyncModel.InternalStepsDrain | dcSpewer/plugins/asyncWork.go:144-237 | every step without new input lowers a bound, so the goroutines come to rest |
| AsyncModel.RestIsSettled | dcSpewer/plugins/asyncWork.go:144-237 | under a live context they only rest with nothing pending |
| AsyncModel.EveryRunAnswersAll | dcSpewer/plugins/asyncWork.go:130-237 | at rest under a live context every received unit was dropped or answered exactly once by a result with its key |
| AsyncModel.ExecutionJustified | dcSpewer/plugins/asyncWork.go:148-188 | a result says the deadline passed if and only if one is set and is at or before now, that the plugin is missing if and only if not so and it is absent; otherwise it has the output of the reply, and its error if and only if there is one |
| AsyncAnswers.EveryAnswerJustified | dcSpewer/plugins/asyncWork.go:130-237 | in every interleaving under a live context each answer of the worker is the outcome of executing the unit taken, in order, and each answer of the handler reports a full queue without output, for each refused unit in order |
| AsyncAnswers.EveryUnitReceived | dcSpewer/plugins/asyncWork.go:190-209 | the units received are exactly the inputs given that parse, in order |
| AsyncWork.AsyncWorkStream.Start | dcSpewer/plugins/asyncWork.go:115-127 | the started stream and its queue size, or the panic of a negative size |
| AsyncWork.AsyncWorkStream.CheckDuplicate | dcSpewer/plugins/asyncWork.go:208-218 | the locked check drops the unit or records its key |
| AsyncWork.AsyncWorkStream.Enqueue | dcSpewer/plugins/asyncWork.go:220-223 | the unit is queued if there is room, else refused |
| AsyncWork.AsyncWorkStream.Withdraw | dcSpewer/plugins/asyncWork.go:224-231 | a refused unit's key is forgotten and its error result prepared |
| AsyncWork.AsyncWorkStream.Execute | dcSpewer/plugins/asyncWork.go:148-188 | the result of a unit, by deadline, plugin, error and output as ExecutionJustified says |
| AsyncWork.AsyncWorkStream.PublishDelete | dcSpewer/plugins/asyncWork.go:130-133 | publishing first forgets the key |
| AsyncWork.AsyncWorkStream.Run | dcSpewer/plugins/asyncWork.go:115-237 | any interleaving of the methods reaches the model's state, with its invariant; under a live context every answer is justified |
| OperationsModel.EveryPollKeeps | dcSpewer/emulatorConnection/operations.go:188-361 | after any polls each running operation was started with the configuration whose digest is recorded, and the header is empty or the overall digest of what is recorded |
| OperationsModel.RecordsIncomingIff | dcSpewer/emulatorConnection/operations.go:254-334 | the recorded digests become the incoming ones if and only if every changed configuration parses and starts and every dropped name was running |
| OperationsModel.FetchConvergesIff | dcSpewer/emulatorConnection/operations.go:188-361 | after any sequence of polls, one that fetches makes the recorded digests the incoming ones if and only if every listed operation that changed or went inactive parses and starts and every dropped name was running; the header is the overall digest of what is recorded |
| OperationsModel.RunsAfterPollIff | dcSpewer/emulatorConnection/operations.go:188-361 | after a poll that fetched, a listed operation that changed or went inactive runs as listed if and only if it parses and starts, another if and only if it ran; nothing else runs |
| OperationsModel.InactiveForgotten | dcSpewer/emulatorConnection/operations.go:196-205 | a running operation that went inactive is neither running nor recorded after the poll, unless that poll started it again |
| OperationsModel.SweepLeavesOthers | dcSpewer/emulatorConnection/operations.go:196-205 | a poll that fetches nothing leaves every other operation and digest as it was, and empties the header if some operation went inactive, and else keeps it |
| OperationsModel.AnswerKinds | dcSpewer/emulatorConnection/operations.go:206-262 | the polling interval, and whether the cloud counts as heard, for every kind of answer |
| OperationsModel.EveryConfigRunsIff | dcSpewer/emulatorConnection/operations.go:268-334 | every listed configuration runs if and only if each changed one starts and each unchanged one was running; nothing else runs |
| OperationsModel.AgreeIff | dcSpewer/emulatorConnection/operations.go:302-334 | recorded operations keep running if and only if no restart failed |
| OperationsModel.SecondPollIdle | dcSpewer/emulatorConnection/operations.go:268-334 | polling recorded configurations again stops, starts and records nothing |
| OperationsModel.UnchangedUntouched | dcSpewer/emulatorConnection/operations.go:268-334 | an unchanged running operation is neither stopped nor started |
| OperationsModel.DeedsExplainRunning | dcSpewer/emulatorConnection/operations.go:284-334 | what runs is what ran before and was not stopped, and what was started; only running operations are stopped |
| OperationsModel.FailedRestartThenRevert | dcSpewer/emulatorConnection/operations.go:302-334 | after a failed restart, going back to the old configuration starts nothing although it is recorded |
| OperationsModel.SameHeaderIff | dcSpewer/emulatorConnection/operations.go:336-360 | with a collision-free digest two headers are equal if and only if the digests in name order are |
| Sorting.OrderedUnique | dcSpewer/emulatorConnection/operations.go:336-349 | there is one ascending listing, so the overall digest does not depend on map order |
| Operations.Poller.SweepInactive | dcSpewer/emulatorConnection/operations.go:196-205 | inactive operations, their digests and the header are dropped, whatever the map order; InactiveForgotten and SweepLeavesOthers say what that achieves |
| Operations.Poller.Compare | dcSpewer/emulatorConnection/operations.go:267-282 | the configurations with a new digest that parse |
| Operations.Poller.DeleteRemoved | dcSpewer/emulatorConnection/operations.go:284-299 | operations no longer listed are stopped once and forgotten if they run |
| Operations.Poller.Restart | dcSpewer/emulatorConnection/operations.go:301-334 | changed operations are stopped and started once each, in any order, and digests recorded only for those that started |
| Operations.Poller.RecalculateHash | dcSpewer/emulatorConnection/operations.go:336-360 | the header is the digest of the recorded digests in name order |
| Operations.Poller.PollOnce | dcSpewer/emulatorConnection/operations.go:188-361 | state, polling interval, stops and starts of one poll, for every answer of the cloud |
| Operations.Poller.Run | dcSpewer/emulatorConnection/operations.go:125-179 | the invariant after any sequence of polls |
| XmlTree.FlatAt | utils/xml/xmlparse.go:75-175 | every object has its entry under the dn of its place, and none is overwritten |
| XmlTree.FlatKeys | utils/xml/xmlparse.go:75-175 | every name in the table is the dn of an object of the tree |
| XmlTree.FlattenedAt | utils/xml/xmlparse.go:75-175 | the table has exactly one entry per object |
| XmlTree.NoEmptyDn | utils/xml/xmlparse.go:89-92 | a proper tree whose root has a non-empty dn never meets the empty-dn panic |
| XmlTree.PrefixSearchFindsDescendants | dcSpewer/plugins/xmlapi.go:223-247 | the names that start with a stored dn and a slash are exactly those of the objects strictly below it |
| XmlTree.JoinOrder | utils/xml/xmlparse.go:130-147 | with slash-free rns one dn plus a slash is a prefix of another if and only if its place is strictly above |
| XmlStore.BelowShrinks | dcSpewer/plugins/xmlapi.go:305-338 | each recursive resolution has strictly fewer stored names below it, so it ends |
| XmlStore.NestedAreDescendants | dcSpewer/plugins/xmlapi.go:251-342 | nested at any depth are exactly the stored objects below, each with its configuration applied, and what configurations nest in those and in the object itself |
| XmlStore.RepeatsDouble | dcSpewer/plugins/xmlapi.go:305-338 | an object below that no configuration nests is nested 2 to the power of the number of stored names between, times |
| XmlStore.DescendantsRepeat | dcSpewer/plugins/xmlapi.go:305-338 | in a flattened tree a descendant n levels down that no configuration nests is nested 2 to the power n - 1 times |
| XmlParse.Parsed.AddDn | utils/xml/xmlparse.go:130-175 | writing the dns into the parsed objects in place gives the tree with dns, and touches no other object |
| XmlParse.Bolt.WriteMos | utils/xml/xmlparse.go:75-128 | writing a tree adds its flat table, or stops at an empty dn |
| XmlParse.Bolt.Convert | utils/xml/xmlparse.go:31-49 | naming and writing a proper tree |
| XmlDb.XmlDb.constructor | dcSpewer/plugins/xmlapi.go:136-183 | the index by class lists the stored names of each class in cursor order |
| XmlDb.XmlDb.GetChildrenDns | dcSpewer/plugins/xmlapi.go:223-247 | seeking and scanning a cursor gives the names below in order |
| XmlDb.XmlDb.GetDn | dcSpewer/plugins/xmlapi.go:251-342 | the object with the device's configuration over the stored values and, if asked for, its children; an object that exists only as a configuration gets them nested in the stored configuration |
| XmlDb.XmlDb.ResolveChildren | dcSpewer/plugins/xmlapi.go:305-338 | each object below a dn in order, with its own children, changing no configuration |
| XmlDb.XmlDb.GetMosFromClass | dcSpewer/plugins/xmlapi.go:186-220 | the answer to a class query and the configurations it leaves |
| XmlDb.XmlDb.WriteDn | dcSpewer/plugins/xmlapi.go:361-380 | a configuration replaces earlier ones class by class; writing over a nil one panics |
| XmlDb.XmlDb.AddInventory | dcSpewer/plugins/xmlapi.go:858-903 | an object the device sees already is refused; another is written and recorded under its class |
| XmlDb.XmlDb.AddToClassCache | dcSpewer/plugins/xmlapi.go:72-95 | a payload is stored unless the guards refuse it |
| XmlDb.XmlDb.GetFromClassCache | dcSpewer/plugins/xmlapi.go:97-126 | a hit, unless the device added to or configured the class |
| XmlDb.XmlDb.ConfigResolveClass | dcSpewer/plugins/xmlapi.go:523-574 | a class query with its cache lookup and insertion |
| ClassQuery.GatherGrows | dcSpewer/plugins/xmlapi.go:186-220 | a query changes configurations if and only if an object that exists only as one gets children or leads an answer of several, and then lists and children only grow |
| ClassWrites.ConfiguredWins | dcSpewer/plugins/xmlapi.go:280-301 | a stored object is shown with every configured attribute as configured, every other as stored, and no more |
| ClassWrites.WrittenIsSeen | dcSpewer/plugins/xmlapi.go:251-301 | after a device wrote an object of the stored class, looking it up shows exactly the written attributes over the stored ones, and what was nested in it |
| ClassWrites.OwnIsSeen | dcSpewer/plugins/xmlapi.go:262-270 | an object that exists only as a configuration shows what was written, class by class |
| ClassWrites.OthersSeeTheSame | dcSpewer/plugins/xmlapi.go:361-380 | a write changes what is seen under no other name and by no other device |
| ClassWrites.ExistsIff | dcSpewer/plugins/xmlapi.go:868-872 | an addition is refused if and only if looking the name up shows the device an object |
| ClassWrites.AddedIsSeen | dcSpewer/plugins/xmlapi.go:858-903 | an added object is seen as it was given, is the last of its class, and cannot be added again |
| ClassCache.QueryLeavesConfigsIff | dcSpewer/plugins/xmlapi.go:186-220 | a query leaves all configurations as they were if and only if it is a hit, or the class has stored objects or at most one added one and, when children are asked for, no added one has any |
| ClassCache.HarmlessQueriesLeaveNoTrace | dcSpewer/plugins/xmlapi.go:523-574 | a run of such queries among configurations and additions leaves what those leave on their own |
| ClassCache.AnswersGrow | dcSpewer/plugins/xmlapi.go:200-213 | with no stored object of the class, the query after n of them lists every added object but the first n + 1 times |
| ClassCache.OwnListedLast | dcSpewer/plugins/xmlapi.go:186-220 | with stored objects of the class, a device's query lists those and then its added ones, and changes nothing |
| ClassCache.HitIsRecomputation | dcSpewer/plugins/xmlapi.go:97-126 | with a valid cache a hit is what the device's own query would compute, and that would change no configuration |
| ClassCache.QueryKeepsValidIff | dcSpewer/plugins/xmlapi.go:72-95 | a query keeps the cache valid if and only if it hits, is refused, or shows neither configurations nor children |
| ClassCache.QueriesRefineRecomputation | dcSpewer/plugins/xmlapi.go:523-574 | over any run of configurations, additions, queries and clearings by any devices under that condition, every plain query gives the answer, and leaves the configurations, of one computed afresh |
| ClassCache.RepairedGuard | dcSpewer/plugins/xmlapi.go:72-95 | with the guard of the look-up before storing as well, every run without hierarchical queries meets that condition |
| ClassCache.PoisonedHit | dcSpewer/plugins/xmlapi.go:72-95 | otherwise a device without configurations gets a wrong answer |
| ClassCache.RepeatHitsIff | dcSpewer/plugins/xmlapi.go:72-126 | the answer of a query is served to the device again if and only if it neither added to the class nor configured one of its names; what the guards refuse leaves the cache as it was |
| NetworkPorts.RequestRefines | dcSpewer/plugins/networkAgent.go:755-819 | a request keeps the keys of both lists together, and makes of each port what the entries naming it say, independently of the others |
| NetworkPorts.MovedKeepsKeys | dcSpewer/plugins/networkAgent.go:747-806 | one entry conserves the slot and port numbers across both lists |
| NetworkPorts.SideIsLastAsked | dcSpewer/plugins/networkAgent.go:784-805 | the side of a port is the one asked for by the last entry naming it, and the object type matches |
| NetworkPorts.StateIsLastAsked | dcSpewer/plugins/networkAgent.go:821-893 | the operational and administrative state, role, speeds and port channel of a port are what the last entry naming it asks for |
| NetworkPorts.FailsIff | dcSpewer/plugins/networkAgent.go:774-776 | a request fails if and only if some entry names no port on either side |
| NetworkAgent.Agent.GetPort | dcSpewer/plugins/networkAgent.go:337-367 | the first port with the numbers, or none |
| NetworkAgent.Agent.RemoveInventoryItem | dcSpewer/plugins/networkAgent.go:747-753 | the last item takes the place of the removed one |
| NetworkAgent.Agent.ConfigureOne | dcSpewer/plugins/networkAgent.go:765-806 | both lists after one entry |
| NetworkAgent.Agent.ConfigureUnifiedPorts | dcSpewer/plugins/networkAgent.go:755-819 | stored inventories change only when every entry found its port |
| NetworkPorts.FcPort | dcSpewer/plugins/networkAgent.go:845-893 | a port turned into fibre channel keeps the requested numbers and has that object type |
| NetworkPorts.EtherPort | dcSpewer/plugins/networkAgent.go:821-843 | a port turned into ethernet keeps the requested numbers and has that object type |
| RedfishModel.PagesConcatenate | redfish-emulator/src/redfishMockupServer.py:431-445 | following nextLinks from anywhere, past the end too, gives the members from there on in order, none lost or repeated |
| RedfishModel.ClientGetsFirst | redfish-emulator/mock-creator/redfishtoollib/redfishtoolTransport.py:493-589 | from any $skip on the client gets the first 10 * $top members, or all when there are fewer or no $top |
| RedfishModel.PatchLeavesWin | redfish-emulator/src/redfishMockupServer.py:37-52 | a non-object value of the patch is in the result |
| RedfishModel.UntouchedKept | redfish-emulator/src/redfishMockupServer.py:37-52 | a path the patch does not mention is as before |
| RedfishModel.PathCases | redfish-emulator/src/redfishMockupServer.py:37-52 | the two laws cover every path but the patch's own objects |
| RedfishModel.MergeIdempotent | redfish-emulator/src/redfishMockupServer.py:37-52 | merging the same patch again changes nothing |
| RedfishModel.CandidatesDiffer | redfish-emulator/src/redfishMockupServer.py:161-169 | the names tried for a new member are all different |
| RedfishModel.TakenBound | redfish-emulator/src/redfishMockupServer.py:161-169 | by pigeonhole at most as many names are taken as there are members |
| Redfish.Collection.Get | redfish-emulator/src/redfishMockupServer.py:431-445 | the page served for a query |
| Redfish.Collection.AddNewMember | redfish-emulator/src/redfishMockupServer.py:161-174 | the first free name is found within one more try than there are members, is appended, and the count is exact |
| Redfish.Collection.AddAll | redfish-emulator/src/redfishMockupServer.py:161-174 | any number of additions keeps names distinct and the count exact |
| Redfish.DictMerge | redfish-emulator/src/redfishMockupServer.py:37-52 | the loop computes the merge |
| Redfish.SendRecvRequest | redfish-emulator/mock-creator/redfishtoollib/redfishtoolTransport.py:493-589 | the loop gathers the pages of at most 10 requests and keeps the first nextLink |
| StreamModel.BatchesConserve | dcSpewer/plugins/stream.go:410-447 | messages plus buffer are everything collected, once and in order; messages are non-empty and numbered 0, 1, 2, ... |
| StreamBatches.BatchesAreGroups | dcSpewer/plugins/stream.go:410-447 | however ticks go, each complete group of successful collections that returned anything has been sent as one message, in order, and the collections after the last group wait; failed ones do not count |
| StreamBatches.BatchesOfSize | dcSpewer/plugins/stream.go:410-447 | with a positive batch size and non-empty collections, n successful ones make n / size messages, and the last n % size wait |
| StreamBatches.MessageIsRun | dcSpewer/plugins/stream.go:410-447 | the i-th message is numbered i and is exactly size successive collections, from the i * size-th on |
| StreamModel.AlwaysExclusive | dcSpewer/plugins/stream.go:176-244 | in every reachable state a live stream is the one registered under its name and its type |
| StreamModel.OnePerType | dcSpewer/plugins/stream.go:176-244 | no two live streams have one type |
| StreamModel.StartOpensIff | dcSpewer/plugins/stream.go:204-237 | a start opens a stream if and only if none of its name is registered |
| StreamModel.LiveAfterIff | dcSpewer/plugins/stream.go:176-244 | which streams are live after a request: a start adds its own and cancels those of its type, a close cancels the one of its name, an end takes out the one that ended |
| StreamModel.TakenAfterIff | dcSpewer/plugins/stream.go:176-244 | a start takes its name and only the end of its stream frees it again |
| StreamModel.TypeIsPrefix | dcSpewer/plugins/stream.go:202 | the type of a stream is its name up to the first colon or comma |
| Stream.BatchStream.Run | dcSpewer/plugins/stream.go:410-447 | the batch loop over any ticks sends exactly the complete groups of successful collections, leaving out empty ones |
| Stream.StreamPlugin.StartStream | dcSpewer/plugins/stream.go:202-238 | registration, and cancellation of the last stream of the type |
| FlowControl.WindowBounds | dcSpewer/emulatorConnection/msgWriter.go:143-175 | a window counts at most max(1, Messages) messages with its acknowledgement, and exceeds Bytes by less than its last message |
| FlowControl.SendWindow | dcSpewer/emulatorConnection/msgWriter.go:143-175 | each message of a window was sent while the counts were below the grant, and messages wait only when it is used up |
| FlowControl.WriteLoop | dcSpewer/emulatorConnection/msgWriter.go:55-180 | over all windows nothing is lost, repeated or reordered |
| PtyModel.EverySession | dcSpewer/plugins/command.go:81-167 | in every interleaving all bytes read are, once and in order, written, gathered, handed over or with the reader; messages are non-empty and bounded |
| PtyModel.AllWritten | dcSpewer/plugins/command.go:81-167 | after a read error under a live context everything read has been written when the gatherer is done |
| PtyModel.WrittenIff | dcSpewer/plugins/command.go:81-167 | however a session ends, once the gatherer is done everything read has been written if and only if no byte is left handed over or with the reader |
| PtyModel.QuietIsWritten | dcSpewer/plugins/command.go:81-167 | a session under a live context at rest, with nothing handed over, has written everything read: what is gathered goes out on a tick |
| PtyModel.ClosedEarlyLoses | dcSpewer/plugins/command.go:81-167 | closed by anyone else, a session can end with output unwritten |
| Command.TerminalSession.Gather | dcSpewer/plugins/command.go:123-128 | gathered bytes wait below the limit and go out at it |
| Command.TerminalSession.DrainAll | dcSpewer/plugins/command.go:104-122 | the quit branch takes what was handed over before it finishes |
| Command.TerminalSession.Run | dcSpewer/plugins/command.go:81-167 | any interleaving of the methods reaches the model's state; after a read error all bytes are in the output |
| Chassis.WaveIsInteger | dcSpewer/inventory/chassis.go:112-130 | the wave is an integer for every port number, so nothing is rounded |
| Chassis.BlockPort | dcSpewer/inventory/chassis.go:112-130 | blocks of ports are numbered alternately downwards and upwards |
| Chassis.BlockBijection | dcSpewer/inventory/chassis.go:112-130 | for any count a >= 1 and any integer k the ports k*a+1 to (k+1)*a map one-to-one onto 1 to a |

## Left out

- CommonInventory.Inventory.CalculateDiff: NaN values, nil references and the fields of a reference other than its type and selector (part of the adcore package, which is not part of this model).
- InventoryReplica.ReportMirrors: the receiver is not in the repository; it is modelled as a merge by key and a removal by key, in either order within a message.
- InventoryCollector.CollectInventory: the random values and the changes made to the inventory between cycles.
- InventoryCycle.CycleCaches: for collections of objects with at most one relationship each; with several an object can be cached before all its targets are (`InventoryCompaction.ProducedEarlyIff`).
- XmlDb.XmlDb.GetDn: a hierarchical look-up of an object that a device configured under several classes, where the source picks one in map order, counts as a failed one.
- XmlDb.XmlDb.GetMosFromClass: an object after the first that is configured under several classes, where the source keeps one in map order, or that an earlier query made a list, which cannot be printed, counts as a failed query; what a failed query has changed by then is not stated.
- ClassCache.QueriesRefineRecomputation: a run ends at a failed query, and queries by dn are not among its events; an object appended to another's configuration is a copy there, so children that a query by dn nests in it later do not show in that copy.
- XmlStore.NestedAreDescendants: for configurations that hold one object of the stored class, which may repeat the stored dn and nest other objects; without one of the class, or with several, the source panics, and one that gives another dn makes it look elsewhere for children.
- XmlStore.RepeatsDouble: copies of an object that a configuration itself nests under the same dn are not counted.
- InventorySelectors.SelectorNames: for peers identified by one property whose name has no space.
- Redfish.DictMerge: nested objects are values; that the source stores the patch's own nested objects in the result is not captured.
- Redfish.SendRecvRequest: HTTP errors, redirects, HEAD requests and the property filter.
- RedfishModel.ClientGetsFirst: for resources without a stored nextLink, and for non-negative `$top` and `$skip`; the slices of negative ones are modelled but not characterised.
- Operations.Poller.PollOnce: the device header, a plugin that returns no operation and the recovery from panics.
- FlowControl.WriteLoop: write errors, pings and the wait limit; the choice among ready channels is represented by what each window finds waiting.
- PtyModel.EverySession: bytes that a read returns together with an error, which the source discards; closing the output channel.
- StreamModel.AlwaysExclusive: a start is one step; two starts of one name between its check and its insertion are not interleaved.
- Chassis.WaveIsInteger: arithmetic is over the reals; float64 and 64-bit overflow do not matter below 2 to the power 53.
- NetworkPorts.RequestRefines: fractional port numbers; requests whose fields have other types make the source panic.
- Websocket dialing, registration, signing, TLS, HTTP handlers, Kubernetes, SSDP and SSH: input and output over libraries that are not part of this model.
- JSON and XML encoding and message framing: their parsers are not in the repository; objects are datatypes.
- Job scheduling, event batching, statistics, upgrade, SD card download, mock file duplication, the farm server and the storage endpoints: they would add easy members or guarantee nothing of interest.
