# Verified model of Hydranium's optimistic concurrency

Hydranium keeps one live model that several clients edit at once. This project models the parts of it that decide
whose edit survives, and proves what they promise for all inputs, all runs and all interleavings:

- **The three-way merge**. A user's edit is a diff from `base` to `ours`, replayed on the refetched root `theirs`. JSON
  is a datatype with arrays as sequences and objects as finite maps (`json.dfy`); patches have the meaning of RFC 6902,
  sections 4.1, 4.2, 4.3 and 4.6, on paths of RFC 6901, section 4 (`json_patch.dfy`, `landing.dfy`). The replay is
  proved equal to a merge that knows nothing of patches: field by field (`field_merge.dfy`), item by item and strictly
  in arrays matched by index (`strict_merge.dfy`), at the indexes that keys name where an array took an object's place
  (`indexed_fields.dfy`, `changed_kinds.dfy`), and symmetric on documents without arrays (`three_way.dfy`). With an item
  key, arrays are rewritten into objects, merged there, and turned back in a merged order (the `key` files), which is
  characterised completely when every array is matched by key (`replay_by_key.dfy`, `edited_orders.dfy`);
  `unrelated_paths.dfy` says which changes never conflict, `edited_twice.dfy` when one lands a second time.
- **The write retry loop** (`reconcile_write.dfy`, `no_lost_update.dfy`), a method against a version-gated server on
  which other clients commit at every `await`, composed with the merge: what lands is one step of the history that holds
  both clients' edits, and the one kind of update that is lost is proved exactly.
- **The data server's connection state**: the generations of opens under way (`openings.dfy`), and the watch records,
  release marks and numbered events as a state machine (`watch_records.dfy`) which the class of `data_server.dfy`
  refines in place.
- **Edits in flight** (`edits_in_flight.dfy`) against an in-order server whose answers may be lost.
- **Smaller stateful cores**: latency tallies and percentiles, topological sort, self-time profiling, the debouncer.

`dafny verify dfyconfig.toml` verifies all of it.

## How to read it

The order in which an object lists its fields is the parameter `ord`, of which nothing is known, so a theorem holds in
every order, unless it says what it needs of one: that keys which name indexes ascend (`IndexedFields.Ascends`), as
property enumeration has them. A diff takes what its base holds from the end. Functions state what the code computes;
where the code is a loop or updates fields, a method does so too and is proved against the function. Environment values
(a key a URI resolves to, whether the store has a document open, a build's fingerprint, the clock) are parameters. Each
`await` is a point where other steps may come between.

In four places the code does less than its description says, and the model follows the code. A foreign client that
replaced what an edit is inside is described as a conflict (packages/protocol/src/patch-merge.ts:138-142), a collision
on one field as a conflict rather than clobbered (:682-684), and an edit run again on newer roots as leaving another
client's update visible (:203-205).

- Where it put an array in the place of the edited object, an edit of a key that names an index of the array lands in
  the array (`ChangedKinds.ArrayTakesEdit`). The conflict comes exactly where an edited field clashes with the element
  its key names, or an added key names no index at the array's end (`ChangedKinds.ArrayInPlaceOfObject`).
- Where it put an object in the place of the edited array, the edit lands in the object, appends always. The conflict
  comes exactly where the edit goes inside an element, or replaces or removes one that is not the value of the field of
  its index (`ChangedKinds.ObjectInPlaceOfArray`).
- An append to such an array overwrites the field of the index it appends at, whatever another client put there, and
  reports `merged` (`ChangedKinds.ForeignFieldLost`). That is exactly when a value of that object is lost
  (`ChangedKinds.AppendOverwrites`); every other foreign edit outside arrays matched by index is in what a merged write
  wrote (`NoLostUpdate.MergedHoldsBothEdits`).
- Replayed twice, an edit of an array matched by index can land twice (`EditedTwice.RemovedTwice`). For edits of
  whole items that is exactly where, with no array refusing it, what it removed stands at the same indexes again, or
  what it appended is not there more often than in its base (`EditedTwice.EditRootTwice`).

## Model

| member | source | states |
|---|---|---|
| `JsonPatch.DiffEdits` | packages/protocol/src/patch-merge.ts:579-580 | every operation of a diff writes a path on which the two documents differ: a removal drops a value the second lacks, an addition makes one the first lacked, a replacement one of another kind or value |
| `PatchRoundTrip.RoundTrip` | packages/protocol/src/patch-merge.ts:45-54 | a diff applied to the document it starts from, with its guards, gives the other document exactly, arrays and nested arrays included |
| `PatchRoundTrip.DiffEmptyIffEqual` | packages/protocol/src/patch-merge.ts:161-164 | the diff is empty exactly for equal documents, so `no-op` means an edit that changes nothing |
| `PatchMergeLoops.AugmentWithTestOps` | packages/protocol/src/patch-merge.ts:45-54 | puts before each replacement and removal the test of the base value at its path, and before nothing else, in order |
| `PatchMergeLoops.DropAgreed` | packages/protocol/src/patch-merge.ts:467-500 | with its cache of compared arrays, drops exactly the operations that the refetch agrees with |
| `PatchMergeLoops.AddsCollide` | packages/protocol/src/patch-merge.ts:536-561 | with its cached tallies, finds exactly whether some addition collides with one the refetch holds |
| `PatchMergeLoops.EditsMoved` | packages/protocol/src/patch-merge.ts:583-602 | with its cached tallies and moves, finds exactly whether some operation edits inside a moved element |
| `PatchMergeLoops.IsElementMoved` | packages/protocol/src/patch-merge.ts:605-627 | decides by tallies kept per array what the element counts of both arrays say |
| `PatchMergeLoops.TallyElements` | packages/protocol/src/patch-merge.ts:636-643 | counts each value of an array as often as the array holds it |
| `PatchMergeLoops.TallyAt` | packages/protocol/src/patch-merge.ts:609-622 | a tally kept for a pointer is the multiset of both arrays there, counted on first use |
| `PatchMergeLoops.ReplayPatch` | packages/protocol/src/patch-merge.ts:258-273 | runs the replay: drop, check, guard, apply, with a conflict wherever one of them fails |
| `PatchMergeLoops.EditOfMovedElementConflicts` | packages/protocol/src/patch-merge.ts:563-602 | an operation inside an element that the refetch, holding a permutation of the base's array, has elsewhere always conflicts: it never lands on another element |
| `PatchMergeLoops.FreshValueIsNoMove` | packages/protocol/src/patch-merge.ts:574-581 | an element changed in place to a value the array did not hold never reads as moved |
| `FieldMerge.ReplayIsMerge` | packages/protocol/src/patch-merge.ts:258-273 | for every base, user's root and refetch, arrays included, the replay leaves exactly what a merge defined on values alone makes: of an object's fields the side that changed one wins, equal changes agree and others clash; of an array matched by index each item merges strictly; and it leaves nothing to write exactly where that merge is settled; where an array stands in an edited object's place this is so in orders that drop no field before a change at a later index, as ascending ones do, and in any other the merge is the replay itself |
| `IndexedFields.AscendingDropsFromEnd` | packages/protocol/src/patch-merge.ts:579-580 | in every order that lists the keys naming indexes in ascending order a diff drops no field before it changes one at a later index |
| `StrictMerges.LandingIsStrict` | packages/protocol/src/patch-merge.ts:97-103 | in an array matched by index, at any depth, a whole diff lands exactly as the strict merge: item by item, where even one change made by both sides clashes, as does an edit inside a moved item, the user's appended items stand before the other client's, and clash where both append one value; for an array in an edited object's place in the orders of `FieldMerge.ReplayIsMerge` |
| `MergeLaws.ReplayIsFieldMerge` | packages/protocol/src/patch-merge.ts:258-273 | the outcome's status as well, by that merge: `already-applied` exactly on what is settled, a conflict exactly on a clash, `merged` otherwise |
| `MergeLaws.FastForward` | packages/protocol/src/patch-merge.ts:258-273 | replayed on its own base, every edit is `merged` and gives the user's root, item order included |
| `MergeLaws.ReplayOnOurs` | packages/protocol/src/patch-merge.ts:480-486 | on the user's own root an edit is `already-applied`, unless it makes some array longer, which conflicts |
| `MergeLaws.ConcurrentAppends` | packages/protocol/src/patch-merge.ts:523-534 | two clients that append any items to one array matched by index both keep all of theirs, the user's first, and conflict exactly when one value is among both |
| `ChangedKinds.ArrayTakesEdit` | packages/protocol/src/patch-merge.ts:138-142 | the described conflict does not happen where the foreign writer put an array in the edited object's place and the edited key names an index that holds the base value: the edit lands in the array |
| `ChangedKinds.ArrayInPlaceOfObject` | packages/protocol/src/patch-merge.ts:138-142 | exactly when it does happen, index names being listed in ascending order: some edited field clashes with the element its key names, or an added key names no index between the array's end and what is left of it |
| `ChangedKinds.KeptKeysInArray` | packages/protocol/src/patch-merge.ts:138-142 | for an edit that keeps the object's keys, in whatever order they come, exactly when some field clashes with the element its key names |
| `ChangedKinds.NamedEditsClash` | packages/protocol/src/patch-merge.ts:138-142 | it always happens where no edited key names an index |
| `ChangedKinds.ObjectInPlaceOfArray` | packages/protocol/src/patch-merge.ts:138-142 | and where an object took the place of the edited array, exactly when the edit goes inside an element, or replaces or removes one that is not the field of its index |
| `ChangedKinds.EditInObject` | packages/protocol/src/patch-merge.ts:258-273 | where the edit lands in that object, it has the user's value at the field of each index the edit changed, and everywhere else the other client's |
| `ChangedKinds.AppendOverwrites` | packages/protocol/src/patch-merge.ts:547-551 | of the values the other client put into that object, exactly those are lost at whose name the user appended another value, and none of them is reported |
| `ChangedKinds.ForeignFieldLost` | packages/protocol/src/patch-merge.ts:682-684 | so two clients' different values for one place end as `merged` with the other client's gone |
| `ChangedKinds.ArrayKeepsItems` | packages/protocol/src/patch-merge.ts:258-273 | where an array took an edited object's place, index names being listed in ascending order, each of its elements that is not the base's field of its index is in the merge, or is there with the user's edit inside it merged |
| `ThreeWayMerge.ReplayIsThreeWay` | packages/protocol/src/patch-merge.ts:258-273 | without arrays the replay conflicts exactly where a reference three-way merge clashes, is `already-applied` exactly where that merge is theirs, and otherwise makes that merge |
| `ThreeWayMerge.FieldMergeIsThreeWay` | packages/protocol/src/patch-merge.ts:258-273 | without arrays the merge of operations is the reference merge: the side that changed a key wins, equal changes agree, others clash |
| `ThreeWayMerge.ReplaySymmetric` | packages/protocol/src/patch-merge.ts:258-273 | without arrays either side may replay: both conflict or both end at one root |
| `ThreeWayMerge.Idempotent` | packages/protocol/src/patch-merge.ts:211-222 | merging an edit into what it made changes nothing |
| `ThreeWayMerge.HoldsEveryEdit` | packages/protocol/src/patch-merge.ts:56-75 | a merge holds the edit's value at every path the edit writes |
| `ThreeWayMerge.ClashIsRelated` | packages/protocol/src/patch-merge.ts:89-103 | every clash is between an operation of each side, of which one's path leads to the other's |
| `ThreeWayMerge.UnrelatedChangesMerge` | packages/protocol/src/patch-merge.ts:233-243 | two changes of which no path leads to another's never conflict |
| `KeyedArrays.ItemsByKey` | packages/protocol/src/patch-merge.ts:362-372 | an array's items by prefixed key, each once and in order, none when an item lacks a key or a key repeats |
| `KeyedArrayLoops.KeyItems` | packages/protocol/src/patch-merge.ts:362-372 | the loop that files the items computes that, stopping at the first item without a key or with one seen |
| `KeyedArrays.WalkFits` | packages/protocol/src/patch-merge.ts:322-359 | at each pointer the walk records, each root that has something there holds an array, with just the keys recorded for it |
| `KeyedArrays.WalkLists` | packages/protocol/src/patch-merge.ts:333-343 | a recorded array has one list per root, each without repetitions |
| `KeyedArrayLoops.WithArraysByKey` | packages/protocol/src/patch-merge.ts:322-359 | the recursion writes exactly the arrays found into the map it is handed, and returns each root's object form |
| `KeyedArrays.RestoreForm` | packages/protocol/src/patch-merge.ts:404-414 | an object form whose arrays are arranged in one root's own order is that root again |
| `ReplayByKeys.OwnOrderRestores` | packages/protocol/src/patch-merge.ts:404-446 | restoring undoes the rewriting of each root under that root's own key order |
| `KeyOrders.KeptIsOneSide` | packages/protocol/src/patch-merge.ts:381-395 | the kept order is the whole list of one side, or empty where neither has the array |
| `KeyOrders.SharedOrder` | packages/protocol/src/patch-merge.ts:374-395 | the items all roots share stand in the user's order where only the user reordered them, else in the refetch's |
| `KeyOrders.PlacesEveryKeyOnce` | packages/protocol/src/patch-merge.ts:421-446 | the arrangement places every merged key, and places it once |
| `KeyOrders.KeepsKeptOrder` | packages/protocol/src/patch-merge.ts:421-446 | the kept keys stand in the kept order |
| `KeyOrders.ExtendsBothOrders` | packages/protocol/src/patch-merge.ts:421-446 | when both sides order their common items alike, the arrangement extends the whole order of both |
| `InsertedItems.InsertedFollowsItsAnchor` | packages/protocol/src/patch-merge.ts:417-446 | an item that one side inserted follows, in the merged order, the very kept item it follows on that side, whatever the sides reordered |
| `KeyedArrayLoops.OrderKeys` | packages/protocol/src/patch-merge.ts:421-444 | the `following` map and the insertion-ordered set give that order |
| `KeyedArrayLoops.Arrange` | packages/protocol/src/patch-merge.ts:421-446 | and the array lists the merged items in it |
| `ReplayByKeyLoop.KeepOrders` | packages/protocol/src/patch-merge.ts:295-302 | the loop over the keyed arrays stops exactly where one of them has incompatible orders |
| `ReplayByKeyLoop.ReplayRootsByKey` | packages/protocol/src/patch-merge.ts:290-313 | runs the keyed replay: rewrite, orders, replay, restore |
| `ReplayByKeys.ReplayByKeyIsMerge` | packages/protocol/src/patch-merge.ts:290-313 | on all documents, arrays matched by key and by index mixed, the replay conflicts exactly where the merge of the object forms clashes or an array's orders do; else it makes that merge with each array matched by key restored in the order kept, every merged item of it placed once and the shared ones by the order rule, and is `already-applied` exactly when that writes nothing |
| `ReplayByKeys.ReplayByKeyIsThreeWay` | packages/protocol/src/patch-merge.ts:290-313 | with every array matched by key, the replay conflicts exactly where the merge of items by key clashes or an array's orders do; else its content is that merge, every item placed once and the shared ones by the order rule, and it is `already-applied` exactly when neither content nor order changes |
| `ReplayByKeys.FastForwardByKey` | packages/protocol/src/patch-merge.ts:290-313 | on its own base an edit is `merged` and gives the user's root with its item order, in arrays matched by key and by index alike |
| `ReplayByKeys.OnOursByKey` | packages/protocol/src/patch-merge.ts:290-313 | on the user's own root an edit is `already-applied`, its order included, unless it makes an array matched by index longer, which conflicts |
| `Reconciliation.ReconcileStatus` | packages/protocol/src/patch-merge.ts:155-170 | `no-op` exactly for a root equal to its base, `unavailable` exactly for a changed one whose refetch produced nothing, and a refusal hands back the refetch unmodified |
| `Reconciliation.ReconcileOnBase` | packages/protocol/src/patch-merge.ts:155-170 | a refetch equal to the base takes the whole edit, with or without an item key |
| `Reconciliation.EditRootEnds` | packages/protocol/src/patch-merge.ts:211-222 | the change of a form turns what the form edited into what it handed back, and leaves that as it is |
| `Reconciliation.EditRootOnce` | packages/protocol/src/patch-merge.ts:211-222 | without arrays, replaying the change on its result changes nothing |
| `EditedTwice.EditRootTwice` | packages/protocol/src/patch-merge.ts:203-222 | with arrays matched by index whose items an edit replaces, removes or appends, a second replay on its result changes anything exactly where it refuses no array and some array takes the edit again: what it removed stands at the same indexes again, or what it appended is not there more often than in the base |
| `EditedTwice.RemovedTwice` | packages/protocol/src/patch-merge.ts:203-222 | which happens: removing the second of two items lands twice where the root has that item a third time |
| `Reconciliation.EditRootWhole` | packages/protocol/src/patch-merge.ts:200-222 | without arrays, the change leaves the root as it is or lands at every path it writes |
| `UnrelatedPaths.UnrelatedPathsMerge` | packages/protocol/src/patch-merge.ts:224-243 | two changes from one root whose changed paths, taken in one call, do not lead into each other reconcile without a conflict: without arrays, or with every array matched by key, the pointers of reordered arrays included |
| `KeyedEdits.ReplayByIdOnce` | packages/protocol/src/patch-merge.ts:290-313 | with every array keyed by one id field, the replay of an edit on what it merged is `already-applied`, content and order |
| `KeyedEdits.ReplayMakesMerge` | packages/protocol/src/patch-merge.ts:290-313 | what such a replay merged is keyed throughout, its object form is the merge, and its orders are settled |
| `KeyedEdits.EditRootOnceById` | packages/protocol/src/patch-merge.ts:211-222 | with every array keyed by one id field, replaying the change on its result changes nothing |
| `EditedOrders.EditRootWholeById` | packages/protocol/src/patch-merge.ts:200-222 | and the change lands whole or not at all: its value at every path it writes, items addressed by key, and in each array that all three roots hold the user's order of the shared items if the user reordered them, else the root's |
| `ReconcileWrites.Server.Persist` | packages/protocol/src/reconcile-write.ts:139-154 | at any foreign commits, a write that lands is the next entry of the server's history, over the root that is current when it lands, whose version is the one it claims; nothing in the history is ever changed; a write the server refuses claims another version than the current one |
| `ReconcileWrites.Resolve` | packages/protocol/src/patch-merge.ts:668-706 | a resolver sees a root that was current while it ran, with its version, and only when it asks for it |
| `ReconcileWrites.Decide` | packages/protocol/src/reconcile-write.ts:111-135 | a conflict leaves a merge to write, gated on the version of the refetch it was made on, or ends the call with the resolver's status |
| `ReconcileWrites.ReconcileWrite` | packages/protocol/src/reconcile-write.ts:89-136 | in every interleaving at most one write lands, exactly one on `persisted` and `merged`; it is the caller's own or the resolver's merge onto the very root it replaces, and the next entry of the history after that root; at most twice the cap of persists are made, one when the cap is 0, and `dropped` comes only at the cap with a merge left |
| `NoLostUpdate.NothingIsLost` | packages/protocol/src/reconcile-write.ts:89-136 | with the default resolver and a base version that names one, a call that landed is one step of the server's history: from the version named to the caller's model, or from the root then current to the merge of the whole edit onto it |
| `NoLostUpdate.StatusTells` | packages/protocol/src/reconcile-write.ts:36-58 | what each status says of the edit and the last refetch, both ways |
| `NoLostUpdate.MergedHoldsBothEdits` | packages/protocol/src/patch-merge.ts:79-83 | a merged root holds the caller's value at every path the caller changed, and what the others put at every path they did, the fields of what they made an object included, and, index names being listed in ascending order, the elements of what they made an array, exactly except where the caller appended to an array at an index that names a field of the object they made of it; paths through arrays matched by index excepted |
| `NoLostUpdate.MergedHoldsBothById` | packages/protocol/src/patch-merge.ts:79-83 | with every array keyed by one id field it holds both edits at all their paths, items addressed by key, and the order of each array |
| `NoLostUpdate.LastWriterWins` | packages/protocol/src/patch-merge.ts:695-706 | with the forcing resolver whatever lands is the caller's own model |
| `Openings.OpenTracker.Begin` | packages/data-server/src/data-server.ts:772-788 | an open joins the generation under way or starts one that remembers whether the session held and watched the document; each generation's count is exactly its unsettled opens |
| `Openings.OpenTracker.Settle` | packages/data-server/src/data-server.ts:789-809 | the session's hold is closed exactly when an open settles as the last of a generation no close ended, none of which answered, that did not hold the document before; an ended open touches no later generation |
| `Openings.OpenTracker.Close` | packages/data-server/src/data-server.ts:566-570 | a close ends every open of the document under way, for good |
| `WatchRecords.StepKeeps` | packages/data-server/src/data-server.ts:365-397 | every step keeps: a record has a watcher or a release mark, a baseline only with a watcher, each key recorded for a client names a document it watches, events are numbered without gaps, no update repeats |
| `WatchRecords.RunKeeps` | packages/data-server/src/data-server.ts:365-397 | so does every run of watches, unwatches, releases, deletions, builds and ends, in any order |
| `WatchRecords.ConsecutiveUpdatesDiffer` | packages/data-server/src/data-server.ts:1664-1683 | while a document stays watched and undeleted, two consecutive updates of it differ in fingerprint or in version |
| `WatchRecords.ReleaseIsSent` | packages/data-server/src/data-server.ts:1569-1599 | whatever happens meanwhile, the first build of a released document that is there is sent when no one watches it then, as the release's unless past the version it was opened again at, and its record is let go |
| `WatchRecords.MarkSurvives` | packages/data-server/src/data-server.ts:1569-1599 | only the next build, a deletion or the connection's end uses up a release mark |
| `DataServers.DataServer.AddWatch` | packages/data-server/src/data-server.ts:1048-1071 | the method on the records is the step `Watch`: the first watcher baselines the document |
| `DataServers.DataServer.UnwatchModelDocument` | packages/data-server/src/data-server.ts:1080-1095 | the step `Unwatch`: every spelling of the one watch goes, and the record with its last watcher |
| `DataServers.DataServer.PruneUriWatchRecord` | packages/data-server/src/data-server.ts:1104-1115 | drops the baseline once no one watches, and the record without a mark |
| `DataServers.DataServer.DropWatches` | packages/data-server/src/data-server.ts:701-708 | the loop over the records is the step `DropWatches` |
| `DataServers.DataServer.MarkRelease` | packages/data-server/src/data-server.ts:1589-1599 | the step `MarkRelease` |
| `DataServers.DataServer.DispatchDeleteEvent` | packages/data-server/src/data-server.ts:1635-1646 | the step `Delete`: what is known of the document goes, its watchers stay, every client is told |
| `DataServers.DataServer.DispatchDirtyEvent` | packages/data-server/src/data-server.ts:1562-1567 | the step `FlipDirty`: sent exactly while someone watches |
| `DataServers.DataServer.DispatchPhaseEvent` | packages/data-server/src/data-server.ts:1693-1753 | the step `Phase`, with the record let go before it is written where the mark was its last hold |
| `DataServers.DataServer.Dispose` | packages/data-server/src/data-server.ts:600-619 | the step `Dispose` |
| `EditsInFlight.ActionDispatcher.TrackEdit` | packages/glsp-client/src/action-dispatcher.ts:335-351 | counts exactly the client's own, first-dispatched edits on a server that settles, keeping the edits held ascending above the highest settle request answered |
| `EditsInFlight.ActionDispatcher.EndEditsThrough` | packages/glsp-client/src/action-dispatcher.ts:358-366 | ends every edit up to the one answered and no other, the early break included |
| `EditsInFlight.ActionDispatcher.Answered` | packages/glsp-client/src/action-dispatcher.ts:349-350 | an answer or rejection in any order, with any before it lost, keeps that |
| `EditsInFlight.ActionDispatcher.OnlyPastEditsLeave` | packages/glsp-client/src/action-dispatcher.ts:130-143 | an edit leaves the count only once the server handled the settle request behind it |
| `EditsInFlight.ActionDispatcher.EditsInFlight` | packages/glsp-client/src/action-dispatcher.ts:211-213 | every edit the server has not answered is in the count |
| `EditsInFlight.ActionDispatcher.WhenEditsSettled` | packages/glsp-client/src/action-dispatcher.ts:221-226 | answers `true` only when the server got past every edit in flight at the call, whatever happens while it waits |
| `LatencyCollectors.TallyHoldsWindow` | packages/protocol/src/latency-collector.ts:143-161 | after any calls the samples are the last ones that fit, rotated at the write index, while count, total and maximum cover all calls |
| `LatencyCollectors.TalliesArePerMethod` | packages/protocol/src/latency-collector.ts:143-161 | each method's tally is that of its own calls |
| `LatencyCollectors.PercentileIsNearestRank` | packages/protocol/src/latency-collector.ts:110-116 | a percentile is a retained sample, the least that its share of the samples does not exceed |
| `LatencyCollectors.PercentilesOrdered` | packages/protocol/src/latency-collector.ts:110-116 | percentiles rise with the percentage and never exceed the maximum of any history their window is part of |
| `LatencyCollectors.LongestIsMaximum` | packages/protocol/src/latency-collector.ts:151-153 | the maximum bounds every duration and is one of them, or 0 |
| `LatencyCollectors.RowCoversHistory` | packages/protocol/src/latency-collector.ts:197-209 | a report row has all calls in its totals and the trailing window in its percentiles |
| `LatencyCollectors.RowsOrdered` | packages/protocol/src/latency-collector.ts:197-209 | and p50 is at most p99, at most the maximum |
| `LatencyCollectors.ReportCoversCalls` | packages/protocol/src/latency-collector.ts:197-209 | so it is after every sequence of calls of any methods |
| `LatencyCollectors.MethodTally.Add` | packages/protocol/src/latency-collector.ts:149-160 | records one call in place: pushes, or overwrites the oldest slot and wraps |
| `LatencyCollectors.LatencyCollector.Record` | packages/protocol/src/latency-collector.ts:143-161 | adds to the one method's tally, made on its first call, and to no other |
| `LatencyCollectors.LatencyCollector.Report` | packages/protocol/src/latency-collector.ts:197-212 | exactly one row per method called, in descending order of totals, and nothing changed |
| `LatencyCollectors.LatencyCollector.Reset` | packages/protocol/src/latency-collector.ts:215-218 | drops every tally and restarts the window |
| `LatencyCollectors.LatencyCollector.Create` | packages/protocol/src/latency-collector.ts:132-140 | refuses exactly a ring buffer that would hold nothing |
| `TopologicalSort.Sort` | packages/cli/src/commands/generate-transfer-model.ts:947-969 | ends on every relation with each distinct name exactly once, and puts every name after its listed dependencies exactly when the relation has no cycle |
| `TopologicalSort.Sorter.Visit` | packages/cli/src/commands/generate-transfer-model.ts:952-963 | the recursive visit: what is visited is sorted or on the path to the name being visited |
| `TopologicalSort.OrderedIsAcyclic` | packages/cli/src/commands/generate-transfer-model.ts:947-969 | no relation with a cycle has an order with dependencies first |
| `TopologicalSort.GetExtends` | packages/cli/src/commands/generate-transfer-model.ts:302-309 | a name extends exactly its supertypes that are no type aliases; where none remains, exactly the element type |
| `ProfileSessions.ProfileSession.Scope` | packages/protocol/src/profile-session.ts:176-200 | for every nesting of scopes, throwing ones included, each sample recorded is the time its scope spent outside nested ones, unclamped, and the stack is left as it was with the frame below charged |
| `ProfileSessions.ProfileSession.CloseFrame` | packages/protocol/src/profile-session.ts:207-225 | takes the frame out wherever it stands last, charges the one below it, and files a self-time that is never negative |
| `ProfileSessions.SelfTimesAddUp` | packages/protocol/src/profile-session.ts:203-225 | the self-times of a scope and all below it add up to its duration |
| `ProfileSessions.OwnAndChildren` | packages/protocol/src/profile-session.ts:203-225 | a scope's own time and its direct children's durations add up to its duration |
| `Debouncers.Debouncer.Schedule` | packages/protocol/src/debouncer.ts:81-90 | opens a window or joins the open one, and arms the timer for the delay, cut short by what is left of the ceiling |
| `Debouncers.Debouncer.Fire` | packages/protocol/src/debouncer.ts:112-117 | clears the window, then runs `fn` once, whose schedules, cancels and flushes act on what is left |
| `Debouncers.Debouncer.Cancel` | packages/protocol/src/debouncer.ts:100-104 | clears the window without a run |
| `Debouncers.Debouncer.Flush` | packages/protocol/src/debouncer.ts:93-97 | fires if a fire is pending, and else changes nothing |
| `Debouncers.NeverStarved` | packages/protocol/src/debouncer.ts:74-90 | in every run of calls, time and timer fires, the timer is armed exactly while a window is open, for the earlier of the delay after its last call and the ceiling after its first, and time has not passed that; every run of `fn` came by both, on the timer exactly then; each window ends once, with one run unless cancelled |
| `Debouncers.StreamMakesProgress` | packages/protocol/src/debouncer.ts:26-33 | whatever calls keep coming, a window has ended by the ceiling after its first call |

## Left out

- Array roots of the keyed replay, and of `editRoot`: the roots handed to them are objects; a replay by index is proved for arrays too.
- Property order inside objects: an object is a map, so which order a merge keeps its keys in is not modelled.
- `canonicalJson` and `toJson`: values are compared as values; keys of undefined value, `toJSON` and prototypes do not occur.
- Numbers are integers, and text is not normalised; the merge only compares them.
- `withArraysByKey` is modelled on paths as sequences of names, without the escaping of pointer components.
- Reconciliation.ChangedPaths: the paths of a change are modelled as a set, not a list.
- UnrelatedPaths.UnrelatedPathsMerge: arrays matched by index, whose items a concurrent change shifts, are not in it.
- EditedTwice.EditRootTwice: edits inside the items of an array matched by index, and edits of an object in whose place an array stands, are not in it.
- KeyedEdits.EditRootOnceById: the item key is the text of one field; an arbitrary key function may change with the merge.
- ReconcileWrites.ReconcileWrite: other errors than a conflict are `Thrown`, whether or not the write landed before; `onUnavailable` is other clients' commits.
- ChangedKinds.ArrayInPlaceOfObject: stated for orders that list the keys naming indexes in ascending order, which objects do for every index an array can have; `FieldMerge.MergeInArray` is the replay itself where an order drops a field before a change at a later index.
- NoLostUpdate.MergedHoldsBothEdits: through an array matched by index a path names an index, not an item, so what a merge holds there is said by `StrictMerges.LandingIsStrict` instead.
- Openings.OpenTracker.Settle: the close and the unwatch it asks for are the session's, and reach the tracker as `Close`.
- Watch answers, snapshots and the reads of a watched open, saves, project events, reference queries and diagnostics of the data server: delegation to services outside this model.
- WatchRecords.ConsecutiveUpdatesDiffer: an update sent to no watcher, as a release's is, is not compared with the one after it.
- Overlapping asynchronous scopes of a profile session, for which the clamp exists, and the sorting of its records.
- LatencyCollectors.PercentileIsNearestRank: durations are reals and the rank is exact; rounding of floating point is not modelled.
- Debouncers.NeverStarved: a timer fires when it is due and time does not pass it; `dispose` is `cancel`, and an error that `fn` throws is not modelled.
- EditsInFlight.ActionDispatcher.Answered: a settle request is rejected by the server that handled it, not before it was sent.
- Popup requests, logging and timing of the action dispatcher, and the rest of the code generator: wiring and text.
