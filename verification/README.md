# Container storage and image copying, verified

A Dafny model of the parts of the container libraries that are hardest to get right, with proofs of what they promise:

* **The layer store** (`storage/layers.go`) survives a crash between any two writes. A record is flagged as incomplete
  on disk before the driver touches anything and while it is taken apart; loading finishes what was interrupted.
  `LayerRecords`, `LayerTraces`, `LayerLoad` and `LayerRuns` treat every durable state as a value and prove the
  property over all crash points and all runs; `LayerEffects` says what one operation leaves behind and
  `LayerDurability` that finished layers survive every run; `LayerStore` is the class whose methods pass through
  exactly those states. `Mounts` and `StartReading` are its mount counts and its reader's retry loop.
* **The image store** (`storage/images.go`) is a list with indexes by ID, name and digest (`Images`, `ImageIndexes`,
  `ImageStore`), cached by several processes that share one file (`ImageCoherence`), where what was
  saved is what is read (`ImageDurability`). `NameClaims` resolves names that several records claim, for images and
  layers alike.
* **The store** (`storage/store.go`) keeps the references between layers, images and containers intact (`StoreState`,
  `StoreOps`, `StoreIntegrity`, `Store`), changes nothing it was not asked to change (`StoreEffects`), removes with an
  image exactly the layers that nothing else needs (`ParentChain`, `ImageRemoval`) and reports the space this frees (`StoreSizes`). `BigDataName` turns keys into file
  names, and `BigDataPath` says which keys end up in one file.
* **User namespaces** (`storage/idset.go`, `storage/userns.go`) hand out ID ranges (`IDSets`, `UserNS`).
* **Copying** (`image/copy`) sends a blob through a pipeline that may change its compression (`Compression`,
  `DigestingReader`, `CompressionSteps`, `BlobPipeline`) and plans what happens to the instances of a manifest list (`InstancePlan`).
* **The checker** (`storage/check.go`) marks what is referenced (`CheckRefs`) and compares directory trees (`CheckTree`).

Where the original changes things in place the model has a class whose methods are proved against functions and
predicates on values; the properties are lemmas about those values. IDs stand for the pointers of the original: lists
and indexes refer to the one record that a map holds under the ID. Files, locks, the graph driver, compressors and
digests are state or function parameters, with these assumptions: a write replaces a file at once or not at all; a lock
file's token is new each time it is recorded; compressing is undone by decompressing and can be told by the first
bytes; a decompressor or compressor that is read to its end has read its input to the end; digests do not collide.
Whether a save, a removal or a driver call succeeds is a parameter of the method that makes it.

What turned out not to hold is stated as an equivalence:

* A container deletion that cannot finish leaves the references broken (`InterruptedContainerDeletion`), and removing the
  layers of an image in order keeps every parent only if its mapped copies are in order (`RemovalOrder`).
* A layer is deleted safely only if memory does not claim a flag the disk lacks (`DeleteNeedsRecordedFlag`). Failing to
  save the flag sets up exactly that case for the next attempt (`RetryAfterUnsavedFlag`).
* Setting big data with an invalid digest leaves the digest index agreeing with the images only if the image had no
  digests (`SetBigData`).
* A process that gives up a change to the image list without saving it serves the change to its next reader; that is
  right only if the change was none (`AbandonedChangeIsServed`, with a run in `UnsavedImageIsServed`).
* A blob is described truly unless it is compressed twice and unpacked once, or is a plain zstd blob that carries the
  annotations of a zstd:chunked one and is kept as it is (`CopyBlobFromStream`, `ReportIsTrue`).
* Different keys have different file names but not always different files: a file name may contain slashes
  (`SharedPath`).
* A forced unmount that the driver refuses changes the count in memory (`Unmount`).

## Model

| member | source | states |
|---|---|---|
| `LayerTraces.DeleteIsSafe` | storage/layers.go:2122-2184 | every durable state a deletion passes through is safe: records without the flag have finished contents and every driver layer has a record; at its end the files hold exactly what memory holds |
| `LayerTraces.CreateIsSafe` | storage/layers.go:1607-1773 | the same for a creation, whether it finishes, cannot save its draft or its result, is refused by the driver, or fails with its contents and is deleted again; memory matches the disk at the end if and only if no unsaved draft had to be left behind |
| `LayerTraces.UnfinishedIsDraft` | storage/layers.go:1768-1773 | a creation that cannot save its last step deletes through the same states as a draft |
| `LayerTraces.UndraftedLeavesNothing` | storage/layers.go:1644-1662 | a creation that cannot save its draft leaves the disk as it was |
| `LayerTraces.FlaggedIsFree` | storage/layers.go:2130-2139 | once the flag is on disk the driver layer may be partial, finished or gone without breaking safety |
| `LayerEffects.CreatedIsAdded` | storage/layers.go:1607-1777 | a creation that finishes puts the record as asked for at the end of memory and of its file, with a finished driver layer, and changes no other record or file |
| `LayerEffects.FailedIsUndone` | storage/layers.go:1644-1777 | a creation that fails at any step and is cleaned up leaves memory and disk as they were |
| `LayerEffects.FailedStaysFlagged` | storage/layers.go:1644-1777 | one that cannot be cleaned up leaves the layer in memory with the flag |
| `LayerEffects.DeletedIsDropped` | storage/layers.go:2122-2236 | a deletion that completes takes the record out of its place in memory and file, and the driver layer, and changes nothing else |
| `LayerEffects.DeleteDoesIt` | storage/layers.go:2122-2236 | how far a deletion got, with all that this leaves |
| `LayerLoad.LoadIsSafe` | storage/layers.go:922-1105 | every durable state a repairing load passes through is safe, for any outcome of the removals |
| `LayerLoad.LoadKeeps` | storage/layers.go:1058-1104 | a load keeps exactly the records that are not both flagged and removed, each with the names no later record claims |
| `LayerLoad.LoadedIsRead` | storage/layers.go:985-1104 | every loaded layer is a record on disk, unchanged but for exactly the names that a later record claims |
| `LayerLoad.ReadIsLoaded` | storage/layers.go:985-1104 | every record that was not flagged and removed is loaded so |
| `LayerLoad.LoadRepairs` | storage/layers.go:922-1105 | after a load no name belongs to two layers, flags are left only where a removal failed, and a second load has something to repair if and only if one failed |
| `LayerLoad.SecondLoadRepairsFlags` | storage/layers.go:985-1056 | what a load writes back leaves a second load nothing but remaining flags |
| `LayerRuns.RunIsSound` | storage/layers.go:922-2236 | in every run of creations, deletions and loads, cut off by a crash after any write, each state on disk is safe, and memory, while there is any, matches it with unique names |
| `LayerRuns.NextIsSound` | storage/layers.go:1607-2236 | one operation, finished or cut off anywhere, keeps that |
| `LayerDurability.FinishedSurvives` | storage/layers.go:922-2236 | in every run, with crashes after any write, a finished layer stays on disk exactly as recorded, with finished contents, and in the memory of every process that has loaded, until somebody asks to delete it |
| `LayerDurability.GoneStaysGone` | storage/layers.go:922-2236 | in every run, a layer that is gone from the files is gone from memory and driver and stays so until somebody asks to create it |
| `LayerDurability.CreatedThenDeleted` | storage/layers.go:1542-2236 | the acts of a run put a layer there and take it away |
| `LayerDurability.RunKeepsNamesUnique` | storage/layers.go:922-2236 | in every run no name is ever recorded for two layers, so no load takes one away |
| `LayerRuns.DeleteNeedsRecordedFlag` | storage/layers.go:2130-2139 | for every outcome of the removal, deleting a layer passes through safe states only if and only if memory does not claim a flag the disk lacks |
| `LayerRuns.RetryAfterUnsavedFlag` | storage/layers.go:2130-2139 | a deletion that cannot save the flag leaves the disk safe but the flag in memory, and retrying it in the same process passes through an unsafe state |
| `LayerStore.LayerStore.WriteFile` | storage/layers.go:1178-1240 | writes exactly the records of one location, in order, as one durable state, or changes nothing and says so |
| `LayerStore.LayerStore.SaveLayers` | storage/layers.go:1153-1240 | writes the given files in turn, one durable state each, up to the first that cannot be written, and succeeds if and only if all can |
| `LayerStore.LayerStore.SetIncomplete` | storage/layers.go:2130-2139 | flags the record in memory and writes its file unless it is flagged already; fails if and only if that write does, with the flag in memory only |
| `LayerStore.LayerStore.InternalDelete` | storage/layers.go:2122-2184 | passes through the states of the value-level unlinking, or stops with the flag in memory if it cannot be saved; keeps list and indexes in agreement, and fails on unknown layers without a change |
| `LayerStore.LayerStore.DeferredDelete` | storage/layers.go:2213-2236 | whichever of its saves and removals work, ends in the states of the value-level deletion as far as it got, and succeeds if and only if all work; then record, file entry and driver layer are gone and everything else is as it was; a deletion that stops before leaves the record with the flag and nothing else changed |
| `LayerStore.LayerStore.CheckIDOrNameConflict` | storage/layers.go:1529-1540 | finds a duplicate ID, or else a name in use, if and only if there is one |
| `LayerStore.LayerStore.Create` | storage/layers.go:1542-1777 | refuses duplicates without a change; otherwise, however far it gets, passes through exactly the states proved safe and ends with list and indexes in agreement; on success the record that was asked for is last in memory and in its file and the driver layer is finished; after a failure that was cleaned up memory and disk are as before |
| `LayerStore.LayerStore.ReadFiles` | storage/layers.go:922-984 | reading the files in turn yields, for every ID, exactly the first record with it, in order |
| `LayerStore.LayerStore.DeleteIncomplete` | storage/layers.go:1058-1090 | deletes the flagged layers in order, going on after a failure, and says whether all went |
| `LayerStore.LayerStore.Repair` | storage/layers.go:1058-1104 | deletes what is flagged, then writes the files up to the first that fails, and succeeds if and only if all of that works |
| `LayerStore.LayerStore.Load` | storage/layers.go:922-1105 | asks for the write lock if and only if something needs repair, otherwise ends with the records of the value-level load and a prefix of its durable states, all of them if every write works; succeeds if and only if every removal and every write does |
| `NameClaims.ResolveWhileReading` | storage/layers.go:985-1000 | each name goes to the last record that claims it, the index agrees, and the records that lost a name are known |
| `NameClaims.ResolveThenIndex` | storage/images.go:517-537 | the same for images, and a conflict is noticed if and only if some image lost a name |
| `NameClaims.ResolvedIsUnique` | storage/layers.go:988-995 | after resolving, no name belongs to two records |
| `NameClaims.LastKeeps` | storage/layers.go:988-995 | no name is lost: the last record that claimed it keeps it |
| `Mounts.MountStore.LoadMounts` | storage/layers.go:1109-1146 | memory becomes what the file says and nothing else |
| `Mounts.MountStore.SaveMounts` | storage/layers.go:1244-1280 | saving and reloading keeps every mounted layer as it was, resets the others, and leaves counts, mount points and index in agreement |
| `Mounts.SavedReloads` | storage/layers.go:1109-1280 | the saved file loads to the same counts and mount points |
| `Mounts.TidyLoads` | storage/layers.go:1109-1146 | any file that names layers and mount points once loads to a state where counts are non-negative and positive exactly for layers with a mount point that the index leads to |
| `Mounts.MountStore.Mount` | storage/layers.go:1796-1850 | mounting adds one to the count, under the old mount point if the kernel still has it and otherwise under the driver's, and changes nothing else; failures change nothing |
| `Mounts.MountStore.Unmount` | storage/layers.go:1853-1896 | unmounting takes one from the count and keeps the mount point or, forced or at the last, leaves neither; it says whether the layer is still mounted and touches no other layer; after a refusal by the driver memory still agrees with the file if and only if nothing was forced or the count was one |
| `Mounts.MountStore.UnmountAll` | storage/layers.go:2213-2230 | the loop before a deletion ends after exactly as many rounds as the layer is mounted, with the layer unmounted and the others untouched |
| `Mounts.UnmountUndoesMount` | storage/layers.go:1796-1896 | an unmount undoes a mount |
| `StartReading.LayerStoreLocks.StartReadingWithReload` | storage/layers.go:598-684 | ends holding both locks for reading or neither, with at most three clean-ups, and succeeds if and only if no reload was needed or one of the first four worked after clean-ups that worked |
| `StartReading.LayerStoreLocks.ReloadUntilFresh` | storage/layers.go:625-671 | the retry loop, the same with the in-process lock given up |
| `Images.DedupeStrings` | storage/store.go:2536-2546 | keeps every name once, in the order of first occurrence |
| `Images.ApplyNameOperation` | storage/utils.go:35-55 | setting gives exactly the new names, removing exactly the old ones not named, adding exactly both; no name twice, in the order in which they come |
| `Images.AddThenRemove` | storage/utils.go:35-55 | adding names and removing them again leaves the names that were there and not named |
| `Images.NamesAfterIsAsAsked` | storage/utils.go:35-55 | exactly which names result from each operation, and in which order |
| `Images.HistoryHasAll` | storage/images.go:825-855 | the history keeps every name, gains the new ones, and starts with the newest |
| `Images.RecomputeDigests` | storage/images.go:462-490 | fails if and only if a digest is invalid; otherwise lists each digest the image is found by once, the chosen one first, whatever order the manifests come in |
| `ImageStore.ImageStore.Save` | storage/images.go:566-590 | the file holds the images of memory in order |
| `ImageStore.ImageStore.Delete` | storage/images.go:858-894 | removes the image from its place in the list and from the indexes and nothing else, also when the digest index has lost sight of it |
| `ImageStore.ImageStore.SetBigData` | storage/images.go:997-1054 | records the item beside the others, recomputes the digests and brings the digest index in line; with an invalid digest it stops with the index agreeing if and only if the image had no digests |
| `ImageStore.ImageStore.Create` | storage/images.go:694-774 | refuses a used ID or name, a missing key or an invalid digest, and otherwise works if saving does; on success the new image has exactly the requested names, history and data items, and list and indexes agree; on any failure list and indexes are as before |
| `ImageStore.ImageStore.Unregister` | storage/images.go:750-759 | removing the image registered last restores list, names and the very digest lists that were there |
| `ImageStore.ImageStore.UpdateNames` | storage/images.go:830-855 | the image gets exactly the names that setting, removing or adding gives, any other image that had one of them loses it and nothing else, the newest name comes first in the history, and the indexes agree |
| `ImageStore.ImageStore.Load` | storage/images.go:503-561 | fails, asks for the write lock, or fails to save exactly when it should, otherwise memory is what the file says with names resolved and digests recomputed, all indexes agree, and a resolved conflict is saved |
| `ImageStore.SavedReloads` | storage/images.go:503-590 | loading a saved list finds nothing to repair and gives the same images back |
| `ImageStore.LoadsSettle` | storage/images.go:503-561 | after a load, recomputing digests again would change nothing |
| `ImageStore.StoredHasItems` | storage/images.go:694-774 | a new image has big data under exactly the given keys, as the last item with each key has it |
| `ImageIndexes.RestoredIndex` | storage/images.go:858-894 | two digest indexes that agree apart from one image, and do not list it, are the same |
| `ImageIndexes.RenamedAgrees` | storage/images.go:830-855 | after names moved, the index leads from every name to the one image that has it |
| `ImageIndexes.RenamedMoves` | storage/images.go:830-855 | names move to the image and leave exactly the others that had them |
| `ImageCoherence.WhoeverStartedIsCoherent` | storage/images.go:216-393 | in every interleaving of processes that open, lock, reload, repair, change, save and die between any two steps, whoever has started reading or writing holds what a fresh load of the file builds |
| `ImageCoherence.RunKeepsInv` | storage/images.go:216-634 | every run keeps the invariant: exclusive locks are exclusive, a token being saved is known to its owner only, and a current token means current memory |
| `ImageCoherence.ReplaceKeeps` | storage/images.go:579-590 | replacing the file keeps the invariant: the saver is up to date and everybody else knows that they are not (`ImageDurability` says what is saved) |
| `ImageCoherence.ReloadKeeps` | storage/images.go:376-393 | reloading keeps the invariant, although after a repair the older token is put back over the recorded one |
| `ImageDurability.LastSaveIsRead` | storage/images.go:216-634 | in every run, the file holds the images of the process that saved last, in order, and every process that has started since holds the same images |
| `ImageDurability.SavedChangeIsRead` | storage/images.go:566-590 | a change that is saved, whatever others do meanwhile, is in the file image by image, is kept by the saver, and is what everybody reads until the next save |
| `ImageDurability.LoadedIsSaved` | storage/images.go:503-590 | whoever loads the file has the images that were saved, up to the order of digests |
| `ImageCoherence.AbandonedChangeIsServed` | storage/images.go:566-590 | a process that gives up a change, before or after recording the token, starts reading without a reload and is coherent if and only if the change, compared with what was loaded before, is none |
| `ImageCoherence.OnlyNoChangeIsCoherent` | storage/images.go:566-590 | memory that was changed agrees with the file if and only if every image is where and what it was, up to what a load recomputes |
| `ImageCoherence.UnsavedImageIsServed` | storage/images.go:566-590 | a run from an empty store in which a process adds an image, fails to save it and then serves it |
| `ImageRemoval.WalkIsRemoval` | storage/store.go:2836-2926 | the greedy walk up the chain removes the mapped copies and exactly the chain layers that no other image, no container and no layer outside reaches |
| `ImageRemoval.RemovalExists` | storage/store.go:2836-2926 | in every acyclic store the walk ends, so there is a removal for every image |
| `ImageRemoval.RemovalOrder` | storage/store.go:2856-2926 | every prefix of the removals leaves each remaining layer its parent if and only if children of mapped copies are mapped copies removed before them |
| `ImageRemoval.UnorderedCopyOrphans` | storage/store.go:2856 | a layer that stands on a mapped copy and is not removed before it is orphaned |
| `StoreIntegrity.RunKeepsIntegrity` | storage/store.go:1565-2982 | every run of creating and deleting layers, images and containers keeps: parents exist, chains are acyclic, image layers exist, container layers exist, are leaves and serve nothing else, mapped copies are private |
| `StoreIntegrity.DeleteImageKeepsIntegrity` | storage/store.go:2781-2932 | also when deleting an image is interrupted after any number of layers |
| `StoreIntegrity.CreateContainerKeepsIntegrity` | storage/store.go:1943-2122 | creating a container, with or without a new mapped copy, keeps the references intact |
| `StoreIntegrity.RefusedContainerLeavesCopy` | storage/store.go:1943-2122 | a refused container leaves the store exactly as it was if and only if some layer of its image fits the mapping or none can be copied; otherwise the new mapped copy stays, registered with the image |
| `StoreEffects.CreatedIsMade` | storage/store.go:2036-2110 | a created container stands on the layer chosen for its mapping |
| `StoreEffects.CopyIsReused` | storage/store.go:1843-1941 | the copy made for one container serves the next one with the same mapping, unless the mapping contradicts itself, and then only copies are ever made |
| `StoreEffects.ContainerKeepsItsLayers` | storage/store.go:1565-2982 | in every run, a container keeps its record and every link of the chain of layers it stands on until it is deleted |
| `StoreEffects.ImageKeepsItsLayers` | storage/store.go:1565-2982 | in every run, an image keeps its top layer, every link of the chain below it and its big data until it is deleted |
| `StoreEffects.StepLeaves` | storage/store.go:1565-2982 | no operation changes a layer that stays, a container or an image it was not asked to delete |
| `StoreIntegrity.InterruptedContainerDeletion` | storage/store.go:2934-2982 | deleting a container keeps the references intact if and only if its directories could be removed |
| `StoreIntegrity.LayerOnCopyIsOrphaned` | storage/store.go:1631-1722 | a layer put on a mapped copy is accepted, and the deletion of the image, which is accepted too, orphans it |
| `StoreSizes.DeletionFreesWhatItReports` | storage/store.go:2781-2932 | the reported size is the drop in total layer and big data size, and each removed layer was there once and is gone |
| `StoreSizes.ReportsAddUp` | storage/store.go:2773-2932 | over any run of deletions the reports add up to the total drop |
| `StoreSizes.DeletionsKeepIntegrity` | storage/store.go:2781-2932 | every run of deletions keeps the references intact |
| `StoreSizes.CountedOnce` | storage/store.go:2781-2932 | a shared layer is counted in one deletion only |
| `Store.Store.PutLayer` | storage/store.go:1565-1722 | puts the layer that was asked for on an existing parent that is no container's layer, with each error leaving the store unchanged, and keeps the references intact |
| `Store.Store.CreateImage` | storage/store.go:1729-1833 | records an image with its top layer, or none, and its big data, with each error leaving the store unchanged, and keeps the references intact |
| `Store.Store.TopLayerForMapping` | storage/store.go:1843-1941 | the first usable layer whose mapping fits, or else the first usable one to copy, or none |
| `Store.Store.CreateContainer` | storage/store.go:1943-2122 | on success the container has the requested layer, image and names, and its layer stands on the first layer of the image that suits the mapping, or else on a new registered copy of the first usable one, or on nothing without an image layer; all other layers and containers are as they were; a refused container takes its layer back, while a new mapped copy stays registered; keeps the references intact |
| `Store.Store.DeleteLayer` | storage/store.go:2709-2766 | refuses layers with children, image top layers and container layers without a change, otherwise removes the layer and its entries among mapped copies and nothing else; keeps the references intact |
| `Store.Store.DeleteContainer` | storage/store.go:2934-2982 | removes the layer and then the record, or leaves the record if the directories stay; keeps the references intact if and only if it finishes or there is nothing to delete |
| `Store.Store.LayersToRemove` | storage/store.go:2826-2926 | the loop over the chain yields the mapped copies and exactly the layers of the reachability definition, from the top down |
| `Store.Store.DeleteImage` | storage/store.go:2781-2932 | refuses unknown and used images, removes as far as layers can be deleted, changes nothing without commit, reports the size it frees, and keeps the references intact |
| `BigDataName.MakeBigDataBaseName` | storage/store.go:3964-3979 | the scanning loop keeps a key as it is exactly if it is plain characters followed by at most one last rune, and encodes it otherwise |
| `BigDataName.NamesAreDistinct` | storage/store.go:3964-3979 | different keys have different file names |
| `BigDataName.RoundTrip` | storage/store.go:3976 | base64 with padding can be decoded again |
| `BigDataPath.SharedPath` | storage/images.go:447-449 | two keys of an image share a file if and only if both names lead out of the directory or their parts, apart from empty ones and dots, are the same |
| `BigDataPath.SlashesShare` | storage/images.go:447-449 | an encoded name made of slashes shares its file with another key |
| `BigDataPath.TrailingSlashShares` | storage/images.go:447-449 | a key and the key with a slash appended share a file |
| `IDSets.FindAvailable` | storage/idset.go:109-122 | the n smallest ids, or a failure if and only if there are fewer |
| `IDSets.Zip` | storage/idset.go:125-149 | the two-cursor loop ends and pairs the k-th host id with the k-th container id as far as both go |
| `IDSets.Size` | storage/idset.go:98-106 | the number of ids |
| `IDSets.HasOverlappingRanges` | storage/idset.go:211-251 | lists the mappings that meet an earlier one, on either side; none if and only if all are disjoint |
| `IDSets.SubtractRemoves` | storage/idset.go:44-50 | subtraction removes exactly the ids of the other set and keeps intervals sorted and apart |
| `IDSets.NewIDSetUnites` | storage/idset.go:17-41 | a set made from intervals has exactly their ids, sorted and apart |
| `IDSets.IdsAscend` | storage/idset.go:17-24 | the ids of a set come in ascending order, each once |
| `UserNS.GetAutoUserNSIDMappings` | storage/userns.go:303-330 | fails if and only if too few free uids or gids remain; otherwise maps the wanted container ids in order to the smallest free host ids |
| `UserNS.NamespaceCovers` | storage/userns.go:303-330 | the container ids are 0 to size and the additional ones |
| `UserNS.AutoKeepsClear` | storage/userns.go:303-330 | automatic host ids are distinct from used and additional ones, and so are container ids |
| `UserNS.ConflictsAreTheCallers` | storage/userns.go:245-330 | the resulting mappings are disjoint if and only if the additional ones are |
| `UserNS.RunKeepsExclusive` | storage/store.go:1970-2028 | over any run of automatic creations and deletions live containers have disjoint automatic host ranges from the available ids |
| `UserNS.Namespaces.CreateAuto` | storage/store.go:1970-2028 | takes such a step and records the namespace under the ID, or fails without a change; the outcome is exactly the first that applies of: namespace too large, too few free uids or gids given every live container, ID taken, overlapping mappings |
| `UserNS.Namespaces.PickSize` | storage/userns.go:245-300 | the size is the requested one, or the largest need bounded below, refused above the maximum |
| `UserNS.Namespaces.Used` | storage/userns.go:262-285 | the used ids are exactly those of all live containers |
| `UserNS.TooFewMeansShort` | storage/userns.go:303-330 | the allocator runs short if and only if fewer available ids than wanted are left by the live containers and the additional mappings |
| `Compression.DetectCompressionFormat` | image/pkg/compression/compression.go:121-147 | whatever order the formats are tried in, the one format whose first bytes fit is found |
| `DigestingReader.DigestingReader.Read` | image/copy/digesting_reader.go:43-62 | hashes what it passes on, judges the digest at the end only, and holds back the last chunk when it is wrong |
| `DigestingReader.DigestingReader.ReadAll` | image/copy/digesting_reader.go:43-62 | however the source cuts the stream, reading it all succeeds, and sets the flag, if and only if the whole text has the digest and ends properly, and then delivers all of it |
| `DigestingReader.DigestingReader.ReadAtLeast` | image/pkg/compression/compression.go:121-129 | reading the first bytes gives them, or everything there is, and fails only on a stream that is not good |
| `CompressionSteps.DetectCompressionStep` | image/copy/compression.go:63-96 | finds the format of the whole stream from its first bytes and its annotations, with its real name, and fails on a good stream if and only if a zstd blob has unreadable annotations |
| `CompressionSteps.CompressionStep` | image/copy/compression.go:126-152 | chooses what the settings call for in every case, and hangs the stages into the stream that carry it out |
| `CompressionSteps.ChangesWhenNeeded` | image/copy/compression.go:126-281 | a blob is changed if and only if it may be and is not what was asked for |
| `CompressionSteps.CompressUncompressedStep` | image/copy/compression.go:172-206 | applies if and only if compression is desired and absent, and compresses with the requested format or gzip |
| `CompressionSteps.RecompressCompressedStep` | image/copy/compression.go:209-253 | applies if and only if another format is requested, and packs the same content |
| `CompressionSteps.DecompressCompressedStep` | image/copy/compression.go:256-281 | applies if and only if decompression is desired and needed, and unpacks the content |
| `CompressionSteps.SourceStream.ReadAll` | image/copy/blob.go:100-112 | reading the stream to its end gives what the stages make of the source if the digest is right, and an error otherwise |
| `CompressionSteps.DoableRuns` | image/copy/compression.go:126-281 | the chosen stages can be run if and only if whatever they unpack is sound, which depends on the source and the settings alone |
| `CompressionSteps.RecordValidatedDigestData` | image/copy/compression.go:342-408 | adds to the cache exactly the digest pair, table of contents and format names that the step has shown; fails after the pair if and only if the annotations are unreadable; the cache stays true if and only if the blob did not come out of a decompressor compressed |
| `CompressionSteps.StepTeaches` | image/copy/compression.go:342-408 | what a step records is what the settings and the source say it must have shown |
| `CompressionSteps.FactsAreTrue` | image/copy/compression.go:342-408 | everything recorded is true if and only if no blob came out of a decompressor compressed |
| `CompressionSteps.ReportIsTrue` | image/copy/compression.go:286-338 | the reported format and variant are those of the uploaded blob if and only if the source is neither a doubly compressed blob to be unpacked nor a plain zstd blob with zstd:chunked annotations to be kept, both of which can be told before the copy |
| `CompressionSteps.ReportIsFaithful` | image/copy/compression.go:286-338 | read as reported, the uploaded blob has the content of the source, in every case |
| `CompressionSteps.AnnotatedZstdIsCalledChunked` | image/copy/compression.go:63-96 | a plain zstd blob with the annotations of a zstd:chunked one that must not be modified is reported as zstd:chunked |
| `CompressionSteps.AnnotationsAreTrue` | image/copy/compression.go:39-50 | annotations about compressed bytes stay with unchanged blobs and otherwise come from the compressor that made the blob |
| `BlobPipeline.CopyBlobFromStream` | image/copy/blob.go:19-146 | for every source, cut into reads in any way, and all settings and destinations: with a wrong digest nothing is stored or recorded; with the right one the copy succeeds if and only if digest and annotations can be read, the stages can be run and the destination accepts what they make; the destination then holds a blob with the content of the source, in the format the settings ask for, and everything it held before; a blob that has the requested format is kept; the cache has gained exactly the digest pair in its direction, the table of contents and the formats, unless the blob was reused unread; the blob is described truly and recorded truly exactly under the conditions of `ReportIsTrue` |
| `BlobPipeline.ReportIsAsDescribed` | image/copy/compression.go:172-338 | media type, annotations, operation and algorithm of the report, each as settings and source have it |
| `BlobPipeline.Destination.PutBlob` | image/copy/blob.go:100-138 | stores what the stream delivers under its digest, or reuses a blob it has without reading; otherwise stores nothing |
| `BlobPipeline.UploadIsTrue` | image/copy/blob.go:100-145 | what was uploaded or reused is what the report says |
| `CompressionSteps.TwiceCompressedIsMisnamed` | image/copy/compression.go:256-281 | the name recorded for a doubly compressed blob that was decompressed once is wrong |
| `InstancePlan.PlatformCompressionMap` | image/copy/multiple.go:79-95 | fails if and only if an instance is unknown, otherwise knows exactly the algorithms of each platform's instances |
| `InstancePlan.DetermineSpecificImages` | image/copy/multiple.go:200-235 | fails if and only if a platform matches nothing, otherwise selects exactly what is asked for by digest or platform |
| `InstancePlan.DeletingLeavesKept` | image/internal/manifest/oci_index.go:179-183 | deleting positions from the back leaves exactly the wanted elements in order |
| `InstancePlan.KeptAreWanted` | image/copy/multiple.go:109-196 | what is kept stands at exactly the positions of the wanted instances, in order |
| `InstancePlan.PrepareInstanceOps` | image/copy/multiple.go:109-196 | plans if and only if nothing stands in the way; the plan copies the instances at the selected positions in order, its deletes leave exactly those and never empty a list, every copied platform gets every requested algorithm, nothing is cloned twice or needlessly, and clones and deletes never meet |
| `CheckRefs.Checker.WalkChain` | storage/check.go:521-545 | marks exactly the known layers of a chain and collects exactly their errors and those about missing layers |
| `CheckRefs.Checker.ExamineImages` | storage/check.go:451-549 | each image that is the first with its ID gets exactly its own errors and those of the layers it uses, and exactly those layers are marked |
| `CheckRefs.Checker.ExamineContainers` | storage/check.go:556-611 | marks exactly the layers of containers, and gives each container its own errors, those of its image and a missing image |
| `CheckRefs.ContainerInherits` | storage/check.go:593-606 | a container's errors are its own and, through its image, those of the layers under it |
| `CheckRefs.Checker.CheckParents` | storage/check.go:421-441 | notes exactly the layers whose parent is missing |
| `CheckRefs.Checker.Check` | storage/check.go:421-643 | every image gets exactly its own errors and those of its layers, every container exactly its own errors, those of its image and a missing image; a read-write layer is reported as unreferenced if and only if it is old enough, is no container's layer and lies on no chain of an examined image |
| `CheckTree.CompareFileInfo` | storage/check.go:807-835 | finds no difference if and only if the attributes agree after ID mapping and as far as they are not ignored, and otherwise names exactly the attributes that differ |
| `CheckTree.SameMeansNoDifference` | storage/check.go:1064-1116 | trees are the same if and only if there is no difference anywhere |
| `CheckTree.CompareCheckSubdirectory` | storage/check.go:1064-1116 | the report holds exactly the differences between the trees, each at its path and with the attributes that differ, and is empty if and only if both have the same directories and files with agreeing attributes at every path |

## Left out

- Graph drivers, tar-split, SELinux labels, temporary directories and lock file internals: foreign or outside the model; their effects are state and parameters.
- Additional layer stores and `PutAdditionalLayer`: they create the driver layer before the record, so the crash property does not hold there.
- The digest maps of layers: `bytocsum` is not cleaned up on deletion, so exact agreement does not hold.
- Renaming layers and containers: only the file of the renamed record is saved, even if the name came from another file.
- Layer records that list a name twice: callers give every name once, and loading assumes it.
- Looking up layers, images and containers by name or abbreviated ID, except where deleting an image asks whether a container exists: callers pass full IDs.
- Several read-write image stores, and read-only stores outside the checker: the store has one of each kind.
- Generating random IDs, timestamps, metadata and flags other than the incomplete flag: parameters, or not modelled because nothing proved depends on them.
- The size of a namespace needed by an image's users and groups (`getMaxSizeFromImage`), including 32-bit wrap-around: a parameter of `UserNS.Namespaces.PickSize`.
- Several threads of one process sharing the image list: in `ImageCoherence` a process does one thing at a time; the in-process lock appears in `StartReading`.
- The files that hold the big data of images: only the record of an item is modelled.
- Container records on disk: easy once images are done.
- Encryption and decryption: foreign library; encrypted media types are passed through unchanged as in the original.
- Reusing blobs without reading them, partial pulls and computing layer digests in `image/copy/single.go`: network and transports.
- Updating digests of copied instances and sorting a list after adding clones (`editInstances`): only deletion by position is modelled.
- Operating system features of platforms are compared as one string; the ambiguity of joining them with commas is not modelled.
- Building the expected and the actual directory tree from archives, and the sorted order of differences: the comparators are not consistent orders.
- Mounts.MountStore.Mount: assumes that the driver does not hand out a mount point that another layer has.
- Mounts.MountStore.Unmount: starts from memory in step with the file or about to be reloaded, which is not so right after a refused forced unmount.
- Mounts.MountStore.UnmountAll: assumes that no other process mounts or unmounts the layer between the rounds.
- LayerRuns.RunIsSound: a process whose deletion or load could not save counts as stopped there, and so does one that could neither save a draft nor take it back; `LayerRuns.RetryAfterUnsavedFlag` shows why.
- LayerStore.LayerStore.Load: assumes distinct IDs on disk and names distinct within a record.
- LayerStore.LayerStore.DeferredDelete: the loop that unmounts the layer first is modelled apart, as `Mounts.MountStore.UnmountAll`.
- NameClaims.ResolveWhileReading: assumes that no record lists a name twice.
- ImageStore.ImageStore.SetBigData: the write of the data file, which may fail before anything else changes, is left out.
- CheckRefs.Checker.Check: assumes distinct container IDs, which the container store sees to, and treats big data checks as given.
- ImageStore.ImageStore.Load: assumes distinct IDs on disk.
- InstancePlan.DetermineSpecificImages: looks at the instances passed in, which the caller takes from the same list.
- CheckTree.CompareCheckSubdirectory: does not say in which order differences are reported, nor how they are worded.
