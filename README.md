# Photo scanner core, modelled in Dafny

This project models the core of an iOS photo scanner. The scanner has three parts.

- **The scan view model.** It classifies every image in the photo library into one `PhotoGroup` or into "others". It does this in batches of 100, and can resume a scan by skipping assets it already holds. Every 100 ms it publishes its progress. At most once a second, and when the scan finishes, it saves the identifiers it holds.
- **The group detail view model.** It shows the assets of one group. It keeps one image slot per asset, asks the image provider for thumbnails, and tracks one request identifier per slot index. It cancels requests that leave the preload window. It also forwards caching hints to the provider.
- **The home screen's group list.** It shows one row per non-empty group in case order, then an "OTHERS" row. Each row shows a count, and selecting a row opens that group's detail view model.

## How it is modelled

- **A `PhotoGroup` is a type parameter `G`.** It comes with these inputs:
  - the list of cases, `allCases`;
  - the classifier, `groupOf: Asset -> Option<G>`, which stands for `PhotoGroup.group(for: asset.reliableHash())`;
  - the row title, which stands for `rawValue.uppercased()`.
- **An asset is its `localIdentifier`.**
- **The scan runs sequentially.** The view model is a class, `Scanning.ScanViewModel`, with the source's fields and a log of the saved records.
  - Its `StartScan` runs the same loops as the source: the resume filter, the batch loop, the per-batch classification and the merge under the update queue.
  - The dispatch to the worker queue is replaced by running the batches in order.
  - `StartScan` is proved equal to the pure function `ScanSpec.StartScanResult`.
  - `ScanProperties` proves what the scan promises about that function.
- **Cancellation is an input.** `cancelAt` is the position in the work queue from which `isCancelled` reads true. It is `None` when the scan is never cancelled.
- **Time is an input.** The clock gives the time of each batch's merge, in milliseconds.
- **The group detail view model is a class.** `ImageRequests.GroupDetailViewModel` has the source's `assets`, `images` and `imageRequests`. It also keeps a log of the calls it makes to the image provider.
  - The provider hands out request identifiers through the function `requestId`: the call made after `n` earlier calls gets `requestId(n)`.
  - A delivery of the result handler is the method `DeliverImage`.
  - Each method is proved equal to a function of `ImageSpec`, and `ImageProperties` proves what those functions guarantee.
- **The home list is pure functions** (`Home`).

Where the code's behaviour may be unexpected, the model follows the code:
- A non-degraded delivery with a nil image writes nil into its slot.
- Shrinking the asset list does not cancel the requests tracked for the removed indices.
- Workers still merge and publish batches after a cancellation that arrives mid-batch.
- A batch cut short by cancellation still counts all its assets into the processed count.
- `loadImageIfNeeded` looks only at the image slot, never at `imageRequests`.
- Nothing prevents a second `startScan` call.

## Model

| member | source | states |
|---|---|---|
| Scanning.ScanViewModel.constructor | ScanViewModel.swift:9-33 | The scan starts with no groups and no others. Processed and total are 0, both flags are false, `lastUIUpdate` is the current time, `lastSaveDate` is the distant past, and nothing is saved yet. |
| Scanning.ScanViewModel.StartScan | ScanViewModel.swift:42-162 | The state after `startScan` is `StartScanResult` of the state before, for the given fetch, reset flag, clock and cancellation point. |
| Scanning.ScanViewModel.CancelScan | ScanViewModel.swift:164-167 | Cancelling sets `isCancelled`, clears `isScanning` and changes nothing else. |
| Scanning.ScanViewModel.Save | ScanViewModel.swift:171-180 | Saving appends a record of processed, total, each group's identifier list and the others' identifiers. Nothing else changes. |
| Scanning.ScanViewModel.PrepareResume | ScanViewModel.swift:54-74 | When reset is asked for or there are no groups, every case gets an empty list. After that, `processed` is the number of held identifiers, and the returned queue holds exactly the fetched assets that are not held. |
| Scanning.ScanViewModel.RunBatches | ScanViewModel.swift:88-146 | The batch loop's accumulating and published state is the batch fold `ScanBatches` run over every batch. |
| Scanning.ScanViewModel.DispatchBatch | ScanViewModel.swift:89-118 | A batch not cancelled at its start advances the fold by exactly that batch. |
| Scanning.ScanViewModel.MergeBatch | ScanViewModel.swift:113-141 | The merge under the update queue appends the batch's classification and counts the whole batch. It publishes when 100 ms have passed since the last publish, and also saves when 1000 ms have passed since the last save. |
| Scanning.ScanViewModel.Notify | ScanViewModel.swift:147-161 | A completed scan publishes its final state and saves it. A cancelled one only clears `isScanning`. |
| Scanning.CollectUnheld | ScanViewModel.swift:69-74 | The enumeration loop collects exactly the unheld fetched assets, in fetch order. |
| Scanning.ClassifyBatch | ScanViewModel.swift:100-112 | The worker loop returns the classification of the batch up to the cancellation point: each group's assets in order, and the unclassified ones in order. |
| Scanning.MergeInto | ScanViewModel.swift:113-116 | The merge loop appends each batch list to its group's list and adds absent keys. |
| Scanning.ScanBatchesBreak | ScanViewModel.swift:89 | Once `isCancelled` is seen at the start of batch k, the result of the whole batch loop is its state after k batches. |
| ScanProperties.UnheldMembers | ScanViewModel.swift:62-74 | An asset is queued if and only if it was fetched and its identifier is not held. |
| ScanProperties.UnheldAppend | ScanViewModel.swift:70-74 | The queue keeps fetch order: filtering two runs of a fetch gives the two filtered runs. |
| ScanProperties.UnheldNothingHeld | ScanViewModel.swift:70-74 | When no fetched identifier is held, the whole fetch is queued. |
| ScanProperties.UnheldAllHeld | ScanViewModel.swift:76-79 | When every fetched identifier is held, the queue is empty. |
| ScanProperties.UnheldIdSet | ScanViewModel.swift:62-74 | The queued identifiers are the fetched ones minus the held ones. |
| ScanProperties.UnheldDistinct | ScanViewModel.swift:69-74 | A fetch with distinct identifiers gives a queue with distinct identifiers. |
| ScanProperties.DistinctIdSetSize | ScanViewModel.swift:62-66 | A list with distinct identifiers holds as many identifiers as assets. |
| ScanProperties.BatchShape | ScanViewModel.swift:86-92 | Every batch holds 1 to 100 assets, and every batch but the last holds exactly 100. |
| ScanProperties.FlattenPrefix | ScanViewModel.swift:88-92 | The first k batches together are the first min(100·k, n) queued assets. |
| ScanProperties.BatchesPartition | ScanViewModel.swift:88-92 | The batches together are the whole queue, in order. Batch k is the slice from 100·k to min(100·k + 100, n). |
| ScanProperties.SelectAppend | ScanViewModel.swift:103-112 | Classifying two runs gives, per group, the two runs' lists one after the other. |
| ScanProperties.SelectCount | ScanViewModel.swift:103-112 | An asset appears in a group's list as often as it appears in the input if it classifies there, and never otherwise. |
| ScanProperties.SelectSub | ScanViewModel.swift:103-112 | Every asset in a group's batch list comes from the batch and classifies into that group. |
| ScanProperties.ClassifyMeaning | ScanViewModel.swift:100-112 | `batchOthers` is the unclassified subsequence and `batchGroups[g]` is the subsequence classified `g`. A group is a key if and only if its list is non-empty. |
| ScanProperties.ClassifyLookup | ScanViewModel.swift:100-112 | For one group `g`, `batchGroups[g]` is the batch's subsequence classified `g`, and `g` is a key if and only if that subsequence is non-empty. |
| ScanProperties.ClassifyOthers | ScanViewModel.swift:100-112 | `batchOthers` is the batch's subsequence of assets with no group, in order. |
| ScanProperties.AbsorbLookup | ScanViewModel.swift:100-116 | One merge appends the batch's assets of group `g` to the list under `g`. The key is present afterwards if and only if it was before or the batch has assets of that group. |
| ScanProperties.MergeLookup | ScanViewModel.swift:113-116 | After the merge, each group's list is its old list followed by the batch's list. A key is present if and only if it was in either map. |
| ScanProperties.PartitionCount | ScanViewModel.swift:100-112 | With distinct cases and a classifier that only returns cases, the group lists and the others together count every asset exactly once. |
| ScanProperties.ExtendsHeld | ScanViewModel.swift:113-118 | After absorbing some assets, the held identifiers are the earlier ones plus those assets' identifiers. |
| ScanProperties.ExtendsSize | ScanViewModel.swift:113-118 | The listed groups' sizes grow by exactly the number of absorbed assets classified into them. |
| ScanProperties.ScanBatchesTemp | ScanViewModel.swift:88-146 | After k batches, the accumulating state is the start state extended by this queue prefix: up to min(100·k, cancellation point) assets, classified. Every dispatched batch is counted in full. |
| ScanProperties.ScanBatchesStable | ScanViewModel.swift:88-89 | Once cancellation is seen at a batch start, no later batch changes anything. |
| ScanProperties.PublishEffect | ScanViewModel.swift:120-141 | The throttled merge step keeps total and both flags. It either leaves the shown state alone or shows the accumulating state, and it either saves nothing or appends that state's record. |
| ScanProperties.ThinSpacing | ScanViewModel.swift:122-138 | A throttle run over a list of event times fires only at those times, at most once per event. Each firing comes at least the interval after the previous one, and the first at least the interval after the initial timestamp. |
| ScanProperties.ThinSnoc | ScanViewModel.swift:122-138 | A new event makes the throttle fire exactly when the interval has passed since its latest firing. |
| ScanProperties.PublishTimestamps | ScanViewModel.swift:120-141 | One merge at time `now` moves `lastUIUpdate` to `now` exactly when it publishes. It moves `lastSaveDate` to `now` and hands one record to `save()` exactly when it publishes and 1000 ms have passed since the last save. |
| ScanProperties.ThrottleTimes | ScanViewModel.swift:88-146 | After k batches, `lastUIUpdate` is the time of the latest publish and `lastSaveDate` the time of the latest save, or their values before the loop when there was none. The loop handed `save()` one record per save time. |
| ScanProperties.ThrottledBatches | ScanViewModel.swift:120-141 | The batch loop publishes only at merge times, each publish at least 100 ms after the previous one (the first at least 100 ms after the `lastUIUpdate` the loop starts from, which `startScan` sets to the start time). It saves only at publish times, each save at least 1000 ms after the previous save. It ends with `lastUIUpdate` and `lastSaveDate` at the latest publish and the latest save. |
| ScanProperties.ScanBatchesPublished | ScanViewModel.swift:120-141 | The batch loop keeps total and both flags and only appends saves. Whatever it shows or saves is the accumulating state after one of its batches. |
| ScanProperties.BatchesCover | ScanViewModel.swift:88 | An uncancelled batch count covers the whole queue. |
| ScanProperties.FoldClassifies | ScanViewModel.swift:81-146 | An uncancelled batch loop extends the prepared state by the whole queue, classified, with every asset counted. |
| ScanProperties.FoldSession | ScanViewModel.swift:42-48 | During the batch loop, total is the fetch count, the scan is running and not cancelled, and saves are only appended. |
| ScanProperties.ScanGuards | ScanViewModel.swift:42-79 | Every scan ends not scanning, with total equal to the fetch count. An empty fetch leaves the groups and saves alone, and an empty queue shows the prepared state. `isCancelled` holds if and only if there was work and a cancellation. Saves only grow. |
| ScanProperties.CompletedResult | ScanViewModel.swift:147-157 | An uncancelled scan with work shows the batch loop's final state and saves it last. |
| ScanProperties.ScanCompletes | ScanViewModel.swift:42-162 | An uncancelled scan shows the prepared state extended by the whole classified queue, with processed equal to the held count plus the queue length. Both flags end false. When there was work, the last save is the final state. |
| ScanProperties.ResumeSkipsHeld | ScanViewModel.swift:62-74 | A resumed scan queues exactly the fetched assets whose identifiers the prepared state does not already hold. |
| ScanProperties.ResetStart | ScanViewModel.swift:54-61 | After a reset, the keys are exactly the cases, every list and the others are empty, processed is 0, and nothing is held. |
| ScanProperties.ExtendsFromEmpty | ScanViewModel.swift:100-118 | Absorbing assets into empty lists classifies them exactly: keys, group lists, others, multiplicities and counts. |
| ScanProperties.FreshScanClassifiesFetch | ScanViewModel.swift:42-162 | After an uncancelled reset scan, the keys are exactly the cases. Each group's list is the fetched assets classified there, in fetch order, and the others are the unclassified ones. Multiplicities are kept, and processed and total equal the fetch count. |
| ScanProperties.ScanKeepsCount | ScanViewModel.swift:100-118 | An uncancelled scan grows the group sizes plus the others by exactly the queue length. |
| ScanProperties.ExtendsUnheld | ScanViewModel.swift:62-74 | Absorbing the queue makes the held identifiers the earlier ones plus the fetch's. Processed stays equal to the held count. |
| ScanProperties.CompletedHolds | ScanViewModel.swift:42-162 | For a fetch with distinct identifiers, a completed scan holds every fetched identifier and processed equals the held count. |
| ScanProperties.ResumedScanCountsFetch | ScanViewModel.swift:62-66 | When everything held is in the fetch, a completed scan ends with processed equal to total. |
| ScanProperties.CompletedIsPrepared | ScanViewModel.swift:54-74 | After a completed scan, the next scan without reset keeps the groups unchanged and already holds the whole fetch. |
| ScanProperties.RescanIsIdempotent | ScanViewModel.swift:42-79 | Scanning the same fetch again after a completed scan changes nothing shown, nothing counted and nothing saved. |
| ScanProperties.CancelledScanShowsPrefix | ScanViewModel.swift:88-161 | A cancelled scan shows either the prepared state or the state after some prefix of its batches. `isCancelled` holds exactly when there was work. |
| ScanProperties.SnapshotKeepsIdentifiers | ScanViewModel.swift:171-180 | The saved record keeps processed, total, the group keys and the list lengths. Its identifiers are exactly the held ones. |
| ImageRequests.GroupDetailViewModel.constructor | GroupDetailViewModel.swift:22-36 | The state is `Initial`: the group's assets (or the others), one nil slot each, then the initial requests. |
| ImageRequests.GroupDetailViewModel.UpdateAssets | GroupDetailViewModel.swift:69-82 | The new state is the asset update of the old one: replace, then grow and load, or shrink. |
| ImageRequests.GroupDetailViewModel.LoadInitialImages | GroupDetailViewModel.swift:88-93 | It loads the indices 0 to min(30, count) − 1, one request after another. |
| ImageRequests.GroupDetailViewModel.LoadImageIfNeeded | GroupDetailViewModel.swift:95-98 | It loads only an index that exists in both lists and whose slot is nil. |
| ImageRequests.GroupDetailViewModel.LoadImage | GroupDetailViewModel.swift:100-147 | An index past the assets changes nothing. Otherwise it makes one provider request for that asset and records the returned identifier under the index. |
| ImageRequests.GroupDetailViewModel.DeliverImage | GroupDetailViewModel.swift:116-142 | The new state is the delivery rule applied to the old one. |
| ImageRequests.GroupDetailViewModel.CancelImageRequest | GroupDetailViewModel.swift:149-156 | A tracked index has its identifier cancelled and becomes untracked. An untracked index changes nothing. |
| ImageRequests.GroupDetailViewModel.CancelAllRequests | GroupDetailViewModel.swift:158-165 | Each tracked key is cancelled once, in some order, and afterwards nothing is tracked. The slots are unchanged. |
| ImageRequests.GroupDetailViewModel.PreloadImages | GroupDetailViewModel.swift:167-193 | The new state is the preload of the old: load the window, then cancel every tracked index outside it, each once. |
| ImageRequests.GroupDetailViewModel.CancelOutside | GroupDetailViewModel.swift:181-192 | Every tracked index outside the window is cancelled, each once, in some order. |
| ImageRequests.GroupDetailViewModel.StartCaching | GroupDetailViewModel.swift:195-206 | It sends the provider one start-caching call carrying the in-range assets, in the order of `indices`. |
| ImageRequests.GroupDetailViewModel.StopCaching | GroupDetailViewModel.swift:208-219 | It sends the provider one stop-caching call carrying the in-range assets, in the order of `indices`. |
| ImageSpec.MinOf | GroupDetailViewModel.swift:170 | The result is an element of the list and no element is smaller. |
| ImageSpec.MaxOf | GroupDetailViewModel.swift:171 | The result is an element of the list and no element is larger. |
| ImageProperties.AreAssetsEqualMeaning | GroupDetailViewModel.swift:60-67 | The lists compare equal if and only if they have the same length and the same identifier at every position. |
| ImageProperties.AreAssetsEqualIsEquality | GroupDetailViewModel.swift:60-67 | Because an asset is its identifier, the comparison holds exactly when the lists are equal. |
| ImageProperties.DuplicateUpdateIsNoOp | GroupDetailViewModel.swift:42-82 | An update that `removeDuplicates` drops would not have changed the state anyway. |
| ImageProperties.LoadRangeEffect | GroupDetailViewModel.swift:76-78 | Loading a range of indices makes one request per index, in increasing order. Each index ends up tracked under its own request's identifier, and nothing else changes. |
| ImageProperties.InitialRequests | GroupDetailViewModel.swift:22-36 | After `init`, there is one slot per asset and every slot is nil. There is exactly one request for each index below min(30, count), in order, and exactly those indices are tracked. |
| ImageProperties.LoadThenCancel | GroupDetailViewModel.swift:144-156 | Loading then cancelling an index leaves it untracked and cancels the very identifier the request returned. |
| ImageProperties.ReloadReplaces | GroupDetailViewModel.swift:144-146 | A second request for an index replaces the identifier tracked under it. |
| ImageProperties.LoadIfNeededIssues | GroupDetailViewModel.swift:95-98 | The state changes if and only if the index exists in both lists and its slot is nil. The slots never change. |
| ImageProperties.UpdateKeepsSlots | GroupDetailViewModel.swift:69-82 | After an update, the assets are the new list and every slot both lists still cover keeps its image. |
| ImageProperties.UpdateKeepsAlignment | GroupDetailViewModel.swift:69-82 | One slot per asset before an update means one slot per asset after it. |
| ImageProperties.UpdateGrowthLoadsNew | GroupDetailViewModel.swift:73-78 | Growth appends nil slots and requests the new indices, in order, each tracked under its own request's identifier. |
| ImageProperties.UpdateWithoutGrowth | GroupDetailViewModel.swift:79-81 | A shrink or an equal-length update makes no provider call and leaves the tracking alone. A shrink truncates the slots; an equal length keeps them. |
| ImageProperties.DeliverEffect | GroupDetailViewModel.swift:116-142 | A delivery touches only its own slot and its own tracking entry. A cancelled delivery changes nothing. A final result always writes its slot and stops tracking the index. A degraded result writes only an empty slot. |
| ImageProperties.FinalAfterDegraded | GroupDetailViewModel.swift:127-140 | A final result replaces an earlier degraded one and ends the tracking. |
| ImageProperties.DegradedAfterFinal | GroupDetailViewModel.swift:130-134 | A degraded result never replaces a non-nil final image. |
| ImageProperties.CancelCallsAt | GroupDetailViewModel.swift:158-163 | Cancelling a list of keys makes one cancel call per key, position by position, each naming that key's identifier. |
| ImageProperties.CancelCallsCover | GroupDetailViewModel.swift:158-163 | For an enumeration of tracked keys, every key's identifier is among the cancel calls. |
| ImageProperties.CancelEachEffect | GroupDetailViewModel.swift:186-191 | Cancelling distinct tracked indices one by one untracks exactly them and cancels each one's identifier, in that order. The slots are kept. |
| ImageProperties.CancelAllCancelsEach | GroupDetailViewModel.swift:158-165 | Every tracked identifier is cancelled, each key once. |
| ImageProperties.PreloadWindowMeaning | GroupDetailViewModel.swift:168-175 | The window holds exactly the asset indices within 10 of the visible range, so every visible asset index is inside it. |
| ImageProperties.NeededInMeaning | GroupDetailViewModel.swift:95-96 | The slots `loadImageIfNeeded` loads over a range are exactly the range's indices that exist in both lists and hold nil, in increasing order. |
| ImageProperties.LoadIfNeededRangeEffect | GroupDetailViewModel.swift:177-179 | Loading a window adds exactly one provider request per needed slot, in increasing order, after the earlier calls. Each needed slot is then tracked under its own request's identifier, even if it was tracked before. Other tracked identifiers stay, and no slot changes. |
| ImageProperties.EvictEffect | GroupDetailViewModel.swift:181-192 | After the loads, the eviction appends one cancel call per index tracked outside the window, each carrying that index's identifier, in enumeration order. Afterwards no index outside the window is tracked. |
| ImageProperties.PreloadEffect | GroupDetailViewModel.swift:167-193 | A preload makes the earlier calls, then one request per needed slot of the window in increasing order, then one cancel per index tracked outside the window. Afterwards only window indices are tracked: those tracked before, and the needed slots under their new requests' identifiers. Every identifier tracked outside the window beforehand is cancelled, and no slot changes. |
| ImageProperties.AssetsAtAppend | GroupDetailViewModel.swift:196-198 | The assets forwarded for two index lists are those of each, in order. |
| ImageProperties.AssetsAtMembers | GroupDetailViewModel.swift:195-198 | An asset is forwarded if and only if it sits at some in-range index of the list. |
| ImageProperties.AssetsAtInRange | GroupDetailViewModel.swift:196-198 | When every index is in range, the forwarded list is the assets at those indices, position by position. |
| Home.GroupRowsAppend | HomeViewController.swift:239-242 | The rows of two runs of cases are those of each run, in order, so the rows follow case order. |
| Home.GroupRowsMembers | HomeViewController.swift:239-242 | Every group row is a case with a non-empty list, under its title. Every such case has a row. |
| Home.GroupRowsCount | HomeViewController.swift:239-242 | With distinct cases, there are as many group rows as non-empty groups. |
| Home.RowCountMeaning | HomeViewController.swift:252-254 | The row count is the number of non-empty groups, plus one when there are others. |
| Home.AllGroupsShape | HomeViewController.swift:238-249 | The list holds exactly the non-empty groups under their titles. The OTHERS row is present if and only if there are others, and it is always the last row. |
| Home.CellCountPositive | HomeViewController.swift:266-275 | A cell shows its row's name. The count is the group's list length, or the others' count for OTHERS, and it is always positive. |
| Home.SelectMatchesCell | HomeViewController.swift:282-288 | Selecting a row opens the detail under the cell's name, over exactly as many assets as the cell counts, with one slot per asset. |

## Left out

- Concurrency is not modelled. This covers dispatch queues, the dispatch group, `weak self` and the main-queue hops. Batches run in order, and each queue block is one atomic step. The model therefore does not capture:
  - several workers interleaving;
  - a delivery racing ahead of the registration of its request identifier;
  - publication on the main queue landing after later merges.
- The Photos framework is left out. `PHAsset.fetchAssets` becomes the `fetch` parameter. The image provider is the call log plus `requestId`. The request options and `targetSize` are not recorded.
- `reliableHash()` and `PhotoGroup.group(for:)` are the uninterpreted function `groupOf`. `PhotoGroup` itself is the type parameter `G`, with its cases `allCases`.
- `save()` runs later on the update queue and reads the published fields. The model takes a publication made just before a save to have landed when the save reads them. The source does not order the main queue and the update queue that way.
- Swift's `Int` traps on overflow; the model's integers are unbounded. This matters only for `ImageSpec.PreloadWindow`, where `minIndex - 10` and `maxIndex + 10` (GroupDetailViewModel.swift:172-173) would trap for visible indices within 10 of the `Int` limits.
- `progress` is a `Double` derived from processed and total, so it is not kept.
- JSON encoding, writing the save file and `loadSavedAsync` are I/O. The model records each saved record in the view model's log instead.
- The Combine subscription (`setupObservers`) is left out. `DuplicateUpdateIsNoOp` shows that the duplicate filter it applies drops only updates that would change nothing.
- `deinit` calling `cancelAllRequests` is left out, since object lifetime is not modelled.
- A delivery that carries an error is modelled as a delivery of its (nil) image with its flags. Only the `print` of the error is left out.
- The UI is left out: layout, alerts, permission prompts, cell configuration and navigation.
- Negative indices are left out, and every index is a natural number:
  - `loadImage`, `loadImageIfNeeded` and the caching calls would trap on a negative index (the array subscripts at GroupDetailViewModel.swift:96, 109, 197 and 210).
  - `CancelImageRequest`: a negative index is a dictionary miss in the source and does nothing. The `nat` index leaves out that no-op case, since no negative index is ever tracked.
- `Scanning.ScanViewModel.StartScan`: the cancellation point is fixed before the scan starts, so a `cancelScan` arriving between batches is modelled only through `cancelAt`.
