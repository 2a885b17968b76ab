# Verified model of the guest stack

A Dafny model of the parts of the confidential-containers guest stack whose correctness is hard to see from the code:
the layer pull and mount pipeline and dm-verity options of image-rs, the shared-rootfs cache protocol between the vsock
server and its clients, the streaming layer cipher and the wrapped-key list of ocicrypt-rs, the attestation event log,
and the KBS clients. `dafny verify dfyconfig.toml` checks it.

| file | models |
|---|---|
| `ImageLayers.dfy` | de-duplication of an image's layers |
| `LayerOverlay.dfy` | unpacking with whiteout conversion, the reversed overlay mount, changesets as the OCI specification defines them |
| `UnpackConditions.dfy` | exactly which layers unpack |
| `OverlayConditions.dfy` | exactly when root marks and repeated layers matter to the mounted view |
| `LayerStore.dfy` | layer directory numbers |
| `LayerPull.dfy` | one layer pull: streaming digests, checks, clean-up, retry |
| `PullRun.dfy` | all interleavings of pulls, database updates and restarts |
| `PullConditions.dfy` | exactly when pulls leave directories behind and when a start can delete layers |
| `PullOrder.dfy` | the bounded concurrent pull against the sequential one |
| `RootfsCache.dfy` | names and files of the shared-rootfs cache |
| `RootfsPrepare.dfy` | preparing a shared rootfs, one prepare after the other |
| `SharedRootfs.dfy` | all interleavings of concurrent prepare requests |
| `RootfsAlone.dfy` | an undisturbed request against the sequential prepare |
| `DigestSidecar.dfy` | the digest sidecar under concurrent queries and changes |
| `FastClient.dfy` | all interleavings of preconnect, prefetch and prepare tasks |
| `FastFraming.dfy` | request and reply frames |
| `AesCtr.dfy` | the AES-CTR and HMAC stream cipher |
| `KeyAnnotations.dfy`, `Text.dfy` | the wrapped-key list; splitting, hexadecimal, base64 |
| `EventLog.dfy`, `EventLogRun.dfy` | log text, replay, write-ahead runs and start-up recovery |
| `KbsClient.dfy`, `KbsAnswers.dfy` | the RCAR client and the token client; exactly when they succeed |
| `DmVerity.dfy` | dm-verity option checks and block arithmetic |

How it is built:

- Code that changes state is a class or method with loops, specified by a function on values; what that function means
  is proved in lemmas.
- Concurrency is a state machine in which each file operation, network exchange or lock operation is one step.
  Theorems speak about every state of every run. Fields called history in a module's comment do not influence steps.
- AES, SHA, HMAC, JWE and the kernel are function-valued parameters or nondeterministic outcomes. Where a law of theirs is
  needed it is a stated condition: freedom from collisions and from cycles, for example, is asked of what is actually
  hashed only.
- Integers are unbounded except where width matters (layer indexes, dm-verity, frame lengths).

Where the code differs from what one would expect, the model follows the code:

- An opaque marker at a layer's own root (`LayerOverlay.RootMarkNeedsToCount`): on an overlay file system that ignores
  the mark there, the mount shows the image exactly under `OverlayConditions.RootMarksMatterIff`.
- De-duplication drops a later occurrence of a layer even where re-applying it would matter
  (`LayerOverlay.DroppingRepeatsCanChangeView`; exactly when: `OverlayConditions.DroppingRepeatsKeepsViewIff`).
- A client whose directory scan failed counts from 0 in the working directory, and can delete layers that an earlier
  such client stored (`PullConditions.FallbackTwiceDeletes`; exactly when: `PullConditions.StartCanDeleteIff`).
- A failing layer cancels its siblings without cleaning up behind them (`PullConditions.CancelledSiblingIsStranded`;
  exactly when something is left: `PullConditions.IdleStoreIsCleanIff`).
- A directory that a layer needs without listing it loses the attributes it has in earlier layers
  (`OverlayConditions.AttributesCanBeLost`; exactly when: `OverlayConditions.StackAttributesAgreeIff`).
- A layer taken from the layer database is not compared with the new image's diff id (`PullRun.DiffIdMatchesIff`).
- A start-up comment says that an empty event log is handled; the file is opened for reading only, so no later start
  ever succeeds (`EventLogRun.EmptyLogIsForever`). Recovery redoes the first event, not the last
  (`EventLogRun.RecoveryRestoresIff`), and a restart extends the register a second time if an event had trailing
  whitespace (`EventLogRun.TrailingBlankBreaksAgreement`; exactly when: `EventLogRun.AgreeingStartKeepsIff`).
- A failed HMAC check is reported once; a reader that goes on sees an ordinary end (`AesCtr.VerdictIsGivenOnce`).
- A read into an empty buffer looks like the end of the input, so an encryption can be cut short unnoticed
  (`AesCtr.TruncationIsSilent`; exactly when: `AesCtr.ReadToEndMeans`).
- The digest sidecar needs more than that every change alters size or time (`DigestSidecar.ReturningStampFools`; exactly
  when, for one query after the other: `DigestSidecar.AnswersAreRightIff`).
- Cache entries are found by sanitized name alone, so a reference that sanitizes like another one, or like an image id,
  gets the other image (`RootfsPrepare.ReferencesAlikeMislead`, `RootfsPrepare.IdsAlikeMislead`; exactly when:
  `RootfsPrepare.OwnSharesIff`).

## Model

| member | source | states |
|---|---|---|
| ImageLayers.CreateImageMeta | image-rs/src/image.rs:690-736 | succeeds exactly when manifest and config list equally many layers; then gives the first occurrence of each digest with the diff id of the same position |
| ImageLayers.KeptAreDistinct | image-rs/src/image.rs:720-733 | kept positions increase and their digests are pairwise different |
| ImageLayers.EveryKeyIsKept | image-rs/src/image.rs:720-733 | every digest of the manifest is kept, by its first occurrence |
| ImageLayers.DropRepeats | image-rs/src/image.rs:720-733 | for every compositional meaning of layer lists, dropping repeats keeps the meaning if each repeat is idle where it stands |
| LayerOverlay.Destination.Unpack | image-rs/src/unpack.rs:91-203 | the entry loop and the deferred directory-times loop leave exactly the tree of the specification function, for every order in which times are set |
| LayerOverlay.FailureIsFinal | image-rs/src/unpack.rs:116-142 | once an entry fails, the whole stream fails |
| LayerOverlay.EnsureDirAdds | image-rs/src/unpack.rs:142-142 | extracting an entry adds exactly the missing ancestor directories |
| LayerOverlay.UnpackIsChangeset | image-rs/src/unpack.rs:48-203 | in whatever order its entries come, a stream that unpacks gives the tree that holds exactly its additions, whiteout devices, opaque marks and implied directories |
| LayerOverlay.LayerContents | image-rs/src/unpack.rs:48-203 | the finished layer, with owners and directory times, is determined by its changeset |
| UnpackConditions.StepOkIff | image-rs/src/unpack.rs:116-188 | the next entry unpacks exactly when the changeset of those before it admits it: a marker needs what it marks, a whiteout a name, a directory and a free place, any other entry directories all the way and no directory where a file is to be |
| UnpackConditions.UnpacksIff | image-rs/src/unpack.rs:91-203 | a layer in which each path occurs at most once unpacks exactly when every entry is admitted by those before it |
| UnpackConditions.UnpackWithoutXattrs | image-rs/src/unpack.rs:104-142 | without extended attributes: exactly which layers unpack, and that the tree then holds the entries as they are, whiteouts as files |
| LayerOverlay.TopLayer | image-rs/src/snapshots/overlay.rs:28-30 | the component-wise overlay lookup equals: top layer first, then the rest unless the top stops the path |
| LayerOverlay.ThroughIffKept | image-rs/src/unpack.rs:55-88 | the lookup passes a layer exactly where its changeset removes nothing |
| LayerOverlay.TopLayerApplies | image-rs/src/image.rs:738-751 | one more layer on top of the mount is one more changeset applied |
| LayerOverlay.OverlayIsChangesets | image-rs/src/image.rs:738-751 | for every list of layers that unpack and every path, the overlay of the reversed list shows what applying the changesets one by one gives |
| LayerOverlay.AttributesAgreeIff | image-rs/src/unpack.rs:142-188 | one layer over a mount: directory attributes agree too, except exactly where the layer implies a directory it does not list over one that has attributes |
| LayerOverlay.EmptyUpperShowsAll | image-rs/src/snapshots/overlay.rs:28-30 | the empty upper directory hides nothing |
| LayerOverlay.DroppingRepeatsKeepsView | image-rs/src/image.rs:720-733 | dropping repeated layers keeps the view at a path whenever re-applying each repeat changes nothing there |
| LayerOverlay.ImageMountShowsImage | image-rs/src/image.rs:690-751 | end to end: mounting the unpacked unique layers in reversed order shows the image as its full layer list defines it |
| LayerOverlay.StackShows | image-rs/src/image.rs:738-751 | the mount of layers that hold given changesets shows those changesets applied one by one |
| OverlayConditions.LastTouchDecides | image-rs/src/image.rs:738-751 | the view at a path is the effect of the topmost layer that adds, needs or removes it |
| OverlayConditions.MountShowsLastEffect | image-rs/src/image.rs:738-751 | the mount shows the effect of the topmost layer that touches the path, attributes included |
| OverlayConditions.StackAttributesAgreeIff | image-rs/src/image.rs:738-751 | the mount of a whole stack equals the changesets applied one by one, attributes included, exactly unless the topmost layer touching the path only implies a directory over an earlier one that has attributes |
| OverlayConditions.AttributesCanBeLost | image-rs/src/unpack.rs:142-188 | a directory, and a file in it in the next layer that does not list it again, lose the directory's attributes |
| OverlayConditions.DroppingRepeatsKeepsViewIff | image-rs/src/image.rs:720-733 | dropping repeats keeps the view at a path exactly when the topmost layer touching it and the topmost first occurrence touching it have the same effect there |
| OverlayConditions.ImageMountShowsImageIff | image-rs/src/image.rs:690-751 | exactly then the mount of the unique layers shows the image with its full layer list |
| OverlayConditions.RootMarkMattersIff | image-rs/src/unpack.rs:67-72 | ignoring one layer's root mark matters exactly where nothing but the mark hides something below |
| OverlayConditions.MountDropsRootMarks | image-rs/src/unpack.rs:67-72 | a mount that ignores root marks always shows the changesets with those marks dropped |
| OverlayConditions.RootMarksMatterIff | image-rs/src/unpack.rs:67-72 | such a mount shows the image at a path exactly when no layer marks its root over something visible that it and the layers above it do not touch otherwise |
| LayerOverlay.DroppingRepeatsCanChangeView | image-rs/src/image.rs:720-733 | a file, its whiteout, and the file again: the first occurrences alone lose the file |
| LayerOverlay.RootMarkNeedsToCount | image-rs/src/unpack.rs:67-72 | an opaque mark on a layer's root hides the lower layers in the specification but not in a mount that ignores it |
| LayerStore.GetLayerIndex | image-rs/src/layer_store.rs:19-41 | below overflow, the next index is above every numeric directory and is 0 or one more than some directory |
| LayerStore.Store.NewLayerStorePath | image-rs/src/layer_store.rs:53-56 | hands out the counter's decimal name and advances it, wrapping at the word size |
| LayerStore.ParseDecimal | image-rs/src/layer_store.rs:33-55 | a handed-out name parses back to its number |
| LayerStore.NewPathsAreNew | image-rs/src/layer_store.rs:19-56 | names handed out after a scan differ from each other and from every existing directory |
| LayerPull.ReadThrough | image-rs/src/stream.rs:39-57 | hasher input and byte count are the stream's bytes, however the stream is chunked |
| LayerPull.Puller.StreamProcessing | image-rs/src/stream.rs:61-95 | succeeds exactly for a known digest prefix, in time and with a good unpacking, and returns the digest that the prefix selects; failure leaves at most the destination behind |
| LayerPull.Puller.HandleLayer | image-rs/src/pull.rs:276-385 | an uncached layer succeeds exactly when decoding, unpacking, digest and size are good; no existing directory is touched, and a failure that cleans up leaves everything as it was |
| LayerPull.Puller.PullLayerWithRetry | image-rs/src/pull.rs:163-213 | an uncached layer succeeds exactly when one of three attempts is good, and the directory then holds the layer of the first good one; a cached layer is returned without any change |
| PullRun.StepKeepsSound | image-rs/src/pull.rs:276-385 | no action of any task or pull, and no restart that begins above it, changes a finished directory in use |
| PullRun.StepKeepsInv | image-rs/src/image.rs:431-475 | every action, and every restart that begins above the directories referred to, keeps the whole store invariant |
| PullRun.ScannedStartIsSafe | image-rs/src/layer_store.rs:19-50 | a restart whose scan lists the store's directories begins above all of them |
| PullRun.DatabasesAreTrue | image-rs/src/image.rs:446-475 | in every state of every run each layer entry is under its own digest, its directory holds a layer that matched its diff id and, if unencrypted, its declared positive size; each recorded image has one matching layer per descriptor, and the pull that recorded it created a bundle from exactly these layers |
| PullRun.DiffIdMatchesIff | image-rs/src/pull.rs:174-180 | a recorded layer has the image's own diff id exactly when it was unpacked for it, or was taken from the database and had been unpacked for the same diff id |
| PullRun.ReferencedLayersAreKept | image-rs/src/unpack.rs:92-102 | from the moment the layer database refers to a directory, nothing removes or changes it, restarts that scan included |
| PullRun.ReferencedImagesAreKept | image-rs/src/image.rs:470-475 | the same for the directories of recorded images |
| PullRun.NothingToDelete | image-rs/src/unpack.rs:92-102 | in a process that began by scanning, the delete-existing step never finds a directory |
| PullRun.NewPathsDiffer | image-rs/src/layer_store.rs:53-56 | in a process that began by scanning, a new path differs from every existing directory and from every earlier path |
| PullConditions.StartCanDeleteIff | image-rs/src/image.rs:170-173 | a start, by scan or fallback, can lead to the deletion of a directory the databases refer to exactly when such a directory of its store has a number at or above the first one |
| PullConditions.FallbackCanDelete | image-rs/src/image.rs:170-173 | a fallback start can delete any layer that an earlier fallback stored and saved |
| PullConditions.FallbackTwiceDeletes | image-rs/src/image.rs:170-173 | from an empty work directory: a client whose scan failed pulls and saves any layer, and the next such client can delete it |
| PullConditions.IdleStoreIsCleanIff | image-rs/src/pull.rs:137-152 | without restarts and failed clean-ups, a store on which no task works holds an unfinished directory exactly when some failing pull cancelled a sibling while its directory existed |
| PullConditions.CancelledSiblingIsStranded | image-rs/src/pull.rs:137-152 | a run of two layers in which the second fails while the first is being unpacked ends with no task and an unfinished directory |
| PullConditions.CanSave | image-rs/src/image.rs:446-487 | merging, bundling, recording and saving a complete pull puts its layer and its image, with exactly these layers, into the saved databases |
| PullConditions.SavedLayerIsReused | image-rs/src/pull.rs:174-180 | after any restart a pull of a saved blob is a hit, whatever its diff id |
| PullConditions.ReleasedStays | image-rs/src/pull.rs:289-385 | a directory that no task works on, below the next number, stays as it is until a restart |
| PullOrder.SequentialMeans | image-rs/src/pull.rs:137-161 | the sequential pull succeeds exactly when every layer does, with one result per layer in order |
| PullOrder.AsyncPullLayers | image-rs/src/pull.rs:127-161 | for every completion order and every limit of at least one, the concurrent pull equals the sequential one |
| PullOrder.PullImageLayers | image-rs/src/image.rs:421-459 | the check for missing layers never finds one; success and failure are those of the unique layers |
| RootfsCache.SanitizePathComponent | image-rs/src/shared_rootfs.rs:257-271 | the loop computes the sanitized name: never empty, safe characters only |
| RootfsCache.SanitizeMeans | image-rs/src/shared_rootfs.rs:257-271 | character by character: what stays, what becomes an underscore, and the name of the empty input |
| RootfsCache.TmpNameIs | image-rs/src/shared_rootfs.rs:629-651 | what replacing the extension makes of entry and bundle-index names |
| RootfsCache.SameFileIff | image-rs/src/shared_rootfs.rs:666-680 | two keys share a file exactly when their sanitized names are equal |
| RootfsCache.TmpIsApart | image-rs/src/shared_rootfs.rs:622-680 | a temporary path is never an entry or marker path, and no marker path an entry path |
| RootfsCache.TmpAfterWrite | image-rs/src/shared_rootfs.rs:622-664 | a temporary file is left over exactly where a write got as far as it and not to its end |
| RootfsCache.DirectoryRefinesMap | image-rs/src/shared_rootfs.rs:289-338 | over every sequence of writes, marks and clears, with faults anywhere, the directory is the map keyed by sanitized name |
| RootfsCache.Untouched | image-rs/src/shared_rootfs.rs:622-664 | operations on other names leave what a key reads alone |
| RootfsCache.ReadsBack | image-rs/src/shared_rootfs.rs:273-321 | a written entry reads back under its reference and its id until a write under the same sanitized name |
| RootfsPrepare.Preparer.WriteForKey | image-rs/src/shared_rootfs.rs:622-642 | the write through a temporary file, with every failure point |
| RootfsPrepare.Preparer.Write | image-rs/src/shared_rootfs.rs:289-296 | validation, then both keys, stopping at the first failure |
| RootfsPrepare.Preparer.PrepareInner | image-rs/src/shared_rootfs.rs:383-456 | build, share, entry, write |
| RootfsPrepare.Preparer.Prepare | image-rs/src/shared_rootfs.rs:361-381 | hit, alias by id or build, with the marker set and cleared around the build |
| RootfsPrepare.IndexedReferenceAnswers | image-rs/src/shared_rootfs.rs:361-368 | an entry under the reference is the answer exactly when both names are there, share, realm address, size and pages are not 0, and the image file exists with that size; otherwise the prepare fails and changes nothing |
| RootfsPrepare.UnparsableReferenceFails | image-rs/src/shared_rootfs.rs:281-286 | a file under the reference that does not parse fails the prepare |
| RootfsPrepare.IndexedIdAnswers | image-rs/src/shared_rootfs.rs:369-375 | an unknown reference takes over a valid entry under the id, with its own names and under both keys, and fails on a stale one |
| RootfsPrepare.NewEntryCarries | image-rs/src/shared_rootfs.rs:431-455 | a new entry carries the build's type, path and size, the bundle's configuration, and the image's digest or its id |
| RootfsPrepare.MarkerAfterBuild | image-rs/src/shared_rootfs.rs:377-380 | the marker is written for a build and stays exactly if its removal fails |
| RootfsPrepare.FirstPrepare | image-rs/src/shared_rootfs.rs:361-456 | the first prepare of an image makes one share and indexes its entry under exactly the two names |
| RootfsPrepare.LaterPrepare | image-rs/src/shared_rootfs.rs:366-375 | a later prepare makes no share and returns the same descriptor |
| RootfsPrepare.OneShareForOneImage | image-rs/src/shared_rootfs.rs:361-381 | any number of prepares of one image under unused references make exactly one share, and all return its descriptor |
| RootfsPrepare.ReferencesAlikeMislead | image-rs/src/shared_rootfs.rs:366-368 | a reference that sanitizes like an earlier reference or id is answered with the earlier image's entry |
| RootfsPrepare.IdsAlikeMislead | image-rs/src/shared_rootfs.rs:369-375 | an id that sanitizes like an earlier reference is answered with the earlier image's share under the new id |
| RootfsPrepare.OwnSharesIff | image-rs/src/shared_rootfs.rs:361-381 | two prepares on a cache that knows none of their names get a share each exactly when no reference or id of the one sanitizes like one of the other |
| RootfsPrepare.NamesCanCollide | image-rs/src/shared_rootfs.rs:257-271 | different references can sanitize alike, and a reference like the digest that is an image id |
| SharedRootfs.RepliesWereValidated | confidential-data-hub/hub/src/bin/vsock-ttrpc-server.rs:104-188 | in every interleaving each Ok reply was, in an earlier state, an entry with both names, share, realm address, size and pages not 0, and an image file of that size |
| SharedRootfs.WaitersSleepAtMost900 | confidential-data-hub/hub/src/bin/vsock-ttrpc-server.rs:229-277 | a waiter never begins more than 900 sleeps |
| SharedRootfs.SleepsAreCounted | confidential-data-hub/hub/src/bin/vsock-ttrpc-server.rs:229-277 | every sleep is counted, and a request waits at most once |
| SharedRootfs.AfterKeepsOwed | image-rs/src/shared_rootfs.rs:323-381 | every step keeps: each marker is owed by a request in flight, or its writing or removal failed |
| SharedRootfs.NoMarkerWhenIdle | image-rs/src/shared_rootfs.rs:323-381 | with no request in flight, markers remain only where a marker operation failed |
| SharedRootfs.NoMarkerRemains | confidential-data-hub/hub/src/bin/vsock-ttrpc-server.rs:140-185 | if marker operations work, no marker remains once no request is in flight |
| SharedRootfs.RepliesCarryTheirShare | image-rs/src/shared_rootfs.rs:361-456 | from an empty cache and without name clashes, the share of every Ok reply was made in this run for the image the reply names, which is the image the requested reference was prepared with, up to sanitizing |
| SharedRootfs.RepliesWerePrepared | image-rs/src/shared_rootfs.rs:361-456 | every Ok reply belongs to a prepare of this run whose reference or id sanitizes like the requested reference |
| RootfsAlone.CachedEntryIsReturned | confidential-data-hub/hub/src/bin/vsock-ttrpc-server.rs:210-219 | a request whose reference is cached is answered from the cache, and so is a waiter that wakes up |
| RootfsAlone.RequestWaitsIff | confidential-data-hub/hub/src/bin/vsock-ttrpc-server.rs:229-236 | without an entry a request waits exactly while the reference is marked |
| RootfsAlone.WaiterDecides | confidential-data-hub/hub/src/bin/vsock-ttrpc-server.rs:236-276 | a waiter sleeps again, or goes on once the marker is gone or 180 seconds have passed |
| RootfsAlone.UnknownIsPulled | confidential-data-hub/hub/src/bin/vsock-ttrpc-server.rs:120-188 | what is unknown is pulled under a marker and then prepared; a failed pull removes the marker |
| RootfsAlone.BundleIsUsed | confidential-data-hub/hub/src/bin/vsock-ttrpc-server.rs:115-118 | an image that was pulled before is prepared at once |
| RootfsAlone.AlonePrepares | image-rs/src/shared_rootfs.rs:361-456 | the steps of an undisturbed prepare come to the result and the files of the sequential prepare |
| DigestSidecar.ReadWhole | image-rs/src/shared_rootfs.rs:803-820 | the hashing loop consumes exactly the file, for every sequence of short reads |
| DigestSidecar.AnswerIsDigestOfContents | image-rs/src/shared_rootfs.rs:822-903 | if every change gives the image a size or time it never had, a digest answered for its present size and time is that of its present contents, whatever ran concurrently |
| DigestSidecar.AnswerMatchesStamp | image-rs/src/shared_rootfs.rs:822-903 | if size and time determine the contents and no change hits a query before it hashes, every answer is the digest of the contents with its size and time |
| DigestSidecar.ReturningStampFools | image-rs/src/shared_rootfs.rs:863-870 | a run in which each change alters the stamp and the answer is still wrong, for every pair of contents with one stamp |
| DigestSidecar.AloneIsPlayed | image-rs/src/shared_rootfs.rs:822-903 | the steps of an undisturbed query give the answer and sidecar of the sequential form |
| DigestSidecar.AloneAnswers | image-rs/src/shared_rootfs.rs:837-871 | a sidecar is believed exactly if it parses, has the image's size and time, and a digest of 64 characters |
| DigestSidecar.FailedQueryFails | image-rs/src/shared_rootfs.rs:822-903 | a query whose operation fails is an error and leaves the sidecar as it is |
| DigestSidecar.AnswersAreRightIff | image-rs/src/shared_rootfs.rs:822-903 | undisturbed queries are all answered rightly exactly when successively queried contents with one size and time have one digest |
| FastClient.StepKeepsInv | image-rs/src/vsock_ttrpc_client/mod.rs:89-290 | every step, time-out and cancellation keeps the invariant |
| FastClient.ResponsesFit | image-rs/src/vsock_ttrpc_client/mod.rs:111-130 | a returned response was produced by a request for the same reference |
| FastClient.ResponsesAreReturnedOnce | image-rs/src/vsock_ttrpc_client/mod.rs:269-278 | no response is returned to two tasks, and a returned one has left the slot |
| FastClient.StreamsServeOnce | image-rs/src/vsock_ttrpc_client/mod.rs:187-210 | each stream carries at most one request and a used one is never in the slot |
| FastClient.OneUncachedPrepare | image-rs/src/vsock_ttrpc_client/mod.rs:120-150 | at most one task at a time prepares without the cache |
| FastClient.LockIsReleased | image-rs/src/vsock_ttrpc_client/mod.rs:120-150 | no finished or aborted task keeps the lock |
| FastClient.PrefetchedIsTaken | image-rs/src/vsock_ttrpc_client/mod.rs:111-118 | a prepare takes a matching prefetched response at once, without any stream |
| FastClient.PrefetchedIsTakenAfterWait | image-rs/src/vsock_ttrpc_client/mod.rs:120-127 | so it does after it waited for the lock |
| FastClient.PrepareAlone | image-rs/src/vsock_ttrpc_client/mod.rs:111-130 | without one it takes the lock, looks again and only then asks |
| FastClient.PrefetchAlone | image-rs/src/vsock_ttrpc_client/mod.rs:132-150 | a prefetch asks only for a reference that is not empty and whose response is not there |
| FastClient.UncachedAlone | image-rs/src/vsock_ttrpc_client/mod.rs:187-267 | the preconnected stream is used if there is one; a prepare returns the answer to its request, a prefetch leaves it in the slot |
| FastClient.PreconnectAlone | image-rs/src/vsock_ttrpc_client/mod.rs:89-109 | a preconnect leaves its new stream in the slot, or nothing changes |
| FastClient.FailureGivesUp | image-rs/src/vsock_ttrpc_client/mod.rs:187-267 | a failed connection or exchange gives no response |
| FastFraming.Stream.WriteFrame | image-rs/src/vsock_ttrpc_client/mod.rs:292-305 | writes the frame, or nothing when the payload exceeds the limit |
| FastFraming.Stream.WriteStatusAndFrame | confidential-data-hub/hub/src/bin/vsock-ttrpc-server.rs:588-606 | the same with a status byte |
| FastFraming.Stream.ReadFrame | confidential-data-hub/hub/src/bin/vsock-ttrpc-server.rs:571-586 | payload, refusal or end of stream, with exactly the bytes consumed |
| FastFraming.FromBeMeans | confidential-data-hub/hub/src/bin/vsock-ttrpc-server.rs:573-574 | the length is big-endian |
| FastFraming.OnlyWrittenReads | image-rs/src/vsock_ttrpc_client/mod.rs:313-328 | only a written frame reads as a payload |
| FastFraming.RefusesLarge | image-rs/src/vsock_ttrpc_client/mod.rs:313-323 | a length over the limit is refused with every payload byte still unread |
| FastFraming.RequestsParseBack | image-rs/src/vsock_ttrpc_client/mod.rs:292-305 | every concatenation of request frames parses back to the same payloads with nothing left |
| FastFraming.OnlyRequestsParse | confidential-data-hub/hub/src/bin/vsock-ttrpc-server.rs:571-586 | bytes that parse are the concatenation of what they parse to |
| FastFraming.RepliesParseBack | confidential-data-hub/hub/src/bin/vsock-ttrpc-server.rs:588-606 | every concatenation of replies parses back to the same statuses and payloads with nothing left |
| FastFraming.OnlyRepliesParse | image-rs/src/vsock_ttrpc_client/mod.rs:307-328 | bytes that parse as replies are the concatenation of those replies |
| AesCtr.Cipher.Init | ocicrypt-rs/src/blockcipher/aes_ctr.rs:54-104 | key, nonce and HMAC checks; nothing changes unless all pass |
| AesCtr.StartsIff | ocicrypt-rs/src/blockcipher/aes_ctr.rs:54-104 | exactly which options a cipher starts with, and with which key, nonce and expected HMAC |
| AesCtr.Cipher.Read | ocicrypt-rs/src/blockcipher/aes_ctr.rs:138-183 | one read is the specified step on state and buffer |
| AesCtr.Cipher.PollRead | ocicrypt-rs/src/blockcipher/aes_ctr.rs:186-248 | the same step as read; Pending and inner errors leave the state unchanged |
| AesCtr.Cipher.FinalizedLbco | ocicrypt-rs/src/blockcipher/aes_ctr.rs:123-135 | after the end the options carry the HMAC, before it an error |
| AesCtr.XorMeans | ocicrypt-rs/src/blockcipher/aes_ctr.rs:153-176 | bit by bit, and that a byte changes exactly where the other is not 0 |
| AesCtr.DrainFlipsBits | ocicrypt-rs/src/blockcipher/aes_ctr.rs:138-183 | for every schedule each bit that comes out is the input bit flipped exactly by the keystream bit of its position |
| AesCtr.MaskTwice | ocicrypt-rs/src/blockcipher/aes_ctr.rs:138-183 | the keystream applied twice is the identity |
| AesCtr.MaskConcat | ocicrypt-rs/src/blockcipher/aes_ctr.rs:138-183 | chunks continue the keystream where the last one stopped |
| AesCtr.DoneIsAbsorbing | ocicrypt-rs/src/blockcipher/aes_ctr.rs:139-145 | after the end every further read gives nothing and changes nothing |
| AesCtr.DrainIsMask | ocicrypt-rs/src/blockcipher/aes_ctr.rs:138-183 | every schedule of short reads to the end gives the masked input and one HMAC verdict |
| AesCtr.CallKeepsConsistent | ocicrypt-rs/src/blockcipher/aes_ctr.rs:138-248 | every call keeps position and HMAC input equal to the bytes consumed |
| AesCtr.ReachableIsConsistent | ocicrypt-rs/src/blockcipher/aes_ctr.rs:123-248 | so in every reachable state |
| AesCtr.DecryptUsesSameNonce | ocicrypt-rs/src/blockcipher/mod.rs:120-205 | the options left by encryption lead decryption to the same key and nonce |
| AesCtr.EncryptStarts | ocicrypt-rs/src/blockcipher/mod.rs:166-184 | encryption starts exactly with a 32-byte key and a nonce, if given, of 16 bytes |
| AesCtr.DecryptStarts | ocicrypt-rs/src/blockcipher/mod.rs:187-204 | decryption starts exactly with the cipher's type, such a key and nonce, and an HMAC |
| AesCtr.RoundTrip | ocicrypt-rs/src/blockcipher/mod.rs:166-204 | encrypting, finalizing and decrypting under independent schedules returns the plaintext and passes the HMAC check |
| AesCtr.CompletedDecryptionIsAuthentic | ocicrypt-rs/src/blockcipher/aes_ctr.rs:138-183 | a reader that stops at the first error never completes a decryption whose HMAC differs |
| AesCtr.ReadToEndMeans | ocicrypt-rs/src/blockcipher/aes_ctr.rs:138-183 | with buffers of any size, a read to the first empty delivery leaves nothing behind exactly when no buffer was empty while bytes were left; encryption finalizes over, and decryption judges, just the bytes taken |
| AesCtr.TruncationIsSilent | ocicrypt-rs/src/blockcipher/aes_ctr.rs:138-183 | an encryption cut short by an empty buffer decrypts to the bytes taken and passes the HMAC check |
| AesCtr.VerdictIsGivenOnce | ocicrypt-rs/src/blockcipher/aes_ctr.rs:138-183 | after a failed HMAC check the next read is an ordinary end |
| KeyAnnotations.PreWrapKey | ocicrypt-rs/src/encryption.rs:79-101 | appends the base64 packet after a comma, or is the first |
| KeyAnnotations.PreUnwrapKey | ocicrypt-rs/src/encryption.rs:103-131 | the loop gives the first success, and fails at a part that is no base64 |
| KeyAnnotations.SplitGivesPackets | ocicrypt-rs/src/encryption.rs:79-131 | splitting an accumulated list and decoding gives exactly the packets in order |
| KeyAnnotations.UnwrapsFirstPossible | ocicrypt-rs/src/encryption.rs:103-131 | the result is that of the first packet that unwraps |
| KeyAnnotations.UnwrapsNothing | ocicrypt-rs/src/encryption.rs:103-131 | failure if none does |
| KeyAnnotations.UnwrapsIff | ocicrypt-rs/src/encryption.rs:103-131 | for any text: a key is unwrapped exactly if some part gives it and all parts before are base64 and do not unwrap |
| KeyAnnotations.AppendingKeepsSuccess | ocicrypt-rs/src/encryption.rs:79-131 | whatever is appended, an earlier success stays the result |
| Text.Base64RoundTrip | ocicrypt-rs/src/encryption.rs:91-114 | decoding inverts encoding (section 4 of RFC 4648) |
| Text.HexRoundTrip | attestation-agent/attestation-agent/src/eventlog/mod.rs:163-166 | decoding inverts encoding |
| EventLog.AccumulateHash | attestation-agent/attestation-agent/src/eventlog/event.rs:62-93 | the loop computes the chain of extends over INIT line and events |
| EventLog.IntegrityCheck | attestation-agent/attestation-agent/src/eventlog/event.rs:95-104 | accepts exactly the register equal to the replay |
| EventLog.AlgorithmRoundTrip | attestation-agent/deps/crypto/src/algorithms.rs:76-91 | a printed algorithm name parses back |
| EventLog.ParsedEventsAreClean | attestation-agent/attestation-agent/src/eventlog/event.rs:22-59 | parsed events have no newline and no trailing whitespace |
| EventLog.ContentKeepsOneLine | attestation-agent/attestation-agent/src/eventlog/mod.rs:186-195 | the content check accepts exactly what keeps an event on one line |
| EventLog.NamedAfterLength | attestation-agent/deps/crypto/src/algorithms.rs:15-60 | an algorithm's digest length is the one its name says |
| EventLog.ParseWritten | attestation-agent/attestation-agent/src/eventlog/event.rs:22-59 | a written log always parses, to the decoded padded register value and the trimmed lines |
| EventLog.ParseGivesLogIff | attestation-agent/attestation-agent/src/eventlog/event.rs:22-59 | parsing returns algorithm, initial state and events exactly when the entries are clean and the register value needs no padding |
| EventLog.ReplayIsChainOfWritten | attestation-agent/attestation-agent/src/eventlog/event.rs:62-93 | replay of the parsed log is the chain of extends made while writing |
| EventLogRun.Agent.ExtendEntry | attestation-agent/attestation-agent/src/eventlog/mod.rs:151-161 | file first, then register: exactly the register that the PCR feeds is extended, and a line is in the file even if its extend fails |
| EventLogRun.FeedsOne | attestation-agent/attester/src/tdx/mod.rs:117-125 | PCRs 1 and 7 feed register 0, 2 to 6 register 1, 8 to 15 register 2, all others register 3 |
| EventLogRun.Agent.DefaultRegister | attestation-agent/attestation-agent/src/config/mod.rs:13-13 | the log of an agent on PCR 17 goes with register 3 |
| EventLogRun.Agent.Start | attestation-agent/attestation-agent/src/eventlog/mod.rs:57-149 | first start, resumption and recovery, with every point at which it can fail |
| EventLogRun.StartsIff | attestation-agent/attestation-agent/src/eventlog/mod.rs:57-149 | exactly when a start ends with a running agent |
| EventLogRun.RestartKeepsAhead | attestation-agent/attestation-agent/src/eventlog/mod.rs:88-120 | a start on a log that parses to what was written keeps the invariant and, if nothing fails, restores agreement; after a lost extend, where the lost line is the one it redoes |
| EventLogRun.CoveredRunIsWriteAhead | attestation-agent/attestation-agent/src/eventlog/mod.rs:57-181 | in every state of every run whose restarts find clean lines, an unpadded register value and no other lost line than the one redone, the register is the replay of the log or, after a lost extend, of the log without its last line |
| EventLogRun.AgreeingStartKeepsIff | attestation-agent/attestation-agent/src/eventlog/mod.rs:88-120 | a start on a log that its register agrees with keeps the register exactly when every event is clean and the register value was not padded |
| EventLogRun.TrailingBlankBreaksAgreement | attestation-agent/attestation-agent/src/eventlog/mod.rs:88-120 | a run without failures: an event with a trailing blank and a restart leave a register that the log no longer replays to |
| EventLogRun.TrailingBlankPasses | attestation-agent/attestation-agent/src/eventlog/mod.rs:186-195 | such an event is accepted |
| EventLogRun.RecoveryRestoresIff | attestation-agent/attestation-agent/src/eventlog/mod.rs:88-120 | after a lost extend, start-up restores agreement exactly when the lost line is the lone INIT line or equals the first event |
| EventLogRun.IntegrityIsUnique | attestation-agent/attestation-agent/src/eventlog/event.rs:95-104 | a register accepts one log of a given algorithm and length, if nothing hashed collides |
| EventLogRun.Agent.ExtendInitEntry | attestation-agent/attestation-agent/src/eventlog/mod.rs:163-181 | the INIT line through the handle the file was opened with; a handle that only reads cannot write it |
| EventLogRun.FirstStartLeavesEmptyIff | attestation-agent/attestation-agent/src/eventlog/mod.rs:131-149 | a first start leaves an empty log exactly when it cannot read the register or write the line |
| EventLogRun.EmptyLogIsForever | attestation-agent/attestation-agent/src/eventlog/mod.rs:71-86 | once the log is empty, every later state of every run has the empty log and no running agent |
| KbsClient.RcarClient.Attest | attestation-agent/kbs_protocol/src/client/rcar_client.rs:212-242 | the attestation loop: up to three requests, retried only on connection or request errors |
| KbsClient.RcarClient.Handshake | attestation-agent/kbs_protocol/src/client/rcar_client.rs:143-203 | the handshake up to the challenge, with every failure exit |
| KbsClient.RcarClient.Respond | attestation-agent/kbs_protocol/src/client/rcar_client.rs:186-263 | evidence, attestation and the new token |
| KbsClient.RcarClient.RepeatHandshake | attestation-agent/kbs_protocol/src/client/rcar_client.rs:114-136 | up to five handshakes |
| KbsClient.RcarClient.GetToken | attestation-agent/kbs_protocol/src/client/rcar_client.rs:97-111 | the held token while valid, otherwise a new one |
| KbsClient.RcarClient.GetResource | attestation-agent/kbs_protocol/src/client/rcar_client.rs:311-379 | up to three attempts with a handshake after each rejection |
| KbsClient.HandshakeMeans | attestation-agent/kbs_protocol/src/client/rcar_client.rs:143-263 | against every server: at most four requests; failure leaves the pair unchanged; success holds a well-formed token issued for the held key in one of its own requests |
| KbsClient.GetTokenMeans | attestation-agent/kbs_protocol/src/client/rcar_client.rs:97-136 | the returned pair is the held one, and its token is still valid or was issued for its key in this call |
| KbsClient.AlwaysPaired | attestation-agent/kbs_protocol/src/client/rcar_client.rs:97-379 | in every run the held token is the initial one or was issued during the run for the held key, which never changes |
| KbsClient.ResourceMeans | attestation-agent/kbs_protocol/src/client/rcar_client.rs:311-379 | a returned resource is the server's answer to a request of this call, decrypted with the held key |
| KbsClient.RequestsAreBounded | attestation-agent/kbs_protocol/src/client/rcar_client.rs:97-379 | at most 15 requests per resource and 20 per token, against every server |
| KbsClient.BoundsAreTight | attestation-agent/kbs_protocol/src/client/rcar_client.rs:97-379 | both bounds are reached |
| KbsAnswers.AttestedIff | attestation-agent/kbs_protocol/src/client/rcar_client.rs:212-242 | the attestation loop ends with the first answer within three calls, if only retriable failures came before |
| KbsAnswers.HandshakeSucceedsIff | attestation-agent/kbs_protocol/src/client/rcar_client.rs:143-263 | exactly which answers let a handshake succeed, and which token it then holds |
| KbsAnswers.TokenReturnedIff | attestation-agent/kbs_protocol/src/client/rcar_client.rs:97-136 | a valid held token is returned without a request; otherwise there is a token exactly when one of five handshakes succeeds |
| KbsAnswers.ResourceReturnedIff | attestation-agent/kbs_protocol/src/client/rcar_client.rs:311-379 | a secret is returned exactly when the server delivers it, to the held key, after a number of rejections each followed by a successful handshake |
| KbsClient.TokenClient.UpdateToken | attestation-agent/kbs_protocol/src/client/token_client.rs:19-28 | token and key replaced together, or neither |
| KbsClient.TokenClient.GetResource | attestation-agent/kbs_protocol/src/client/token_client.rs:33-103 | up to three attempts with a new pair after each rejection |
| KbsClient.ResourceByTokenMeans | attestation-agent/kbs_protocol/src/client/token_client.rs:33-103 | a returned resource was requested in this call with the held token and decrypted with the key of the same pair |
| KbsAnswers.ResourceByTokenReturnedIff | attestation-agent/kbs_protocol/src/client/token_client.rs:33-103 | a secret is returned exactly when the server delivers it, to the held pair, after a number of rejections each followed by a new pair |
| KbsAnswers.ResourceAttempts | attestation-agent/kbs_protocol/src/client/token_client.rs:42-103 | both clients try three times |
| KbsClient.AlwaysPairedByProvider | attestation-agent/kbs_protocol/src/client/token_client.rs:19-103 | in every run the held pair is the initial one or one the provider gave out during the run |
| DmVerity.IsValidBlockSize | image-rs/src/verity/dmverity.rs:80-87 | exactly the powers of two from 512 to 524288 |
| DmVerity.CaseDoesNotMatter | image-rs/src/verity/dmverity.rs:32-32 | the algorithm's name may be in capitals |
| DmVerity.Validate | image-rs/src/verity/dmverity.rs:31-78 | accepts exactly the valid options, without overflow |
| DmVerity.HashStartIsExact | image-rs/src/verity/dmverity.rs:144-145 | checked arithmetic overflows for the single offset 2^64 minus hashsize only; start block times block size is the offset, with wrapping arithmetic even there |
| DmVerity.TableIsExact | image-rs/src/verity/dmverity.rs:181-186 | the data size fits, the sector count is exact, and the hash area begins at or after the end of the data |

## Left out

- Entry paths with `..`, non-UTF-8 names, tar extended attributes, device nodes and the target semantics of links: a link is a file whose owner and time the system chooses.
- Mounting layers that were unpacked without extended attributes: the overlay theorems are about converted whiteouts.
- Layer store overflow: `GetLayerIndex` and `PullRun` promise distinct names below index overflow only; two clients at work on one store are not modelled.
- LayerPull.Puller.HandleLayer: holds one attempt at a time; interleavings are in `PullRun`, where the number of retries is not bounded.
- PullOrder.AsyncPullLayers: a limit of 0 never starts a layer and is excluded.
- PullRun: a file operation that a cancelled task has handed to a background thread ends before the cancellation.
- The nydus pull path, signature checks and the metadata file's format: the saved databases are either the present ones or lost.
- SharedRootfs: crashes, cancelled requests and torn writes of one key by two writers; the bundle index is an arbitrary answer there, its files are covered by `RootfsCache`.
- RootfsPrepare.OneShareForOneImage: image files stay as they are between the prepares, and the file operations work.
- `prepare_shared_rootfs_image`: the choice among image formats is an outcome of the builder.
- DigestSidecar: a torn temporary file never parses.
- `decrypt_layer_key_opts_data`, `decrypt_layer` and `finalize_annotations`: thin loops over `pre_unwrap_key` and the handler.
- EventLogRun: entries sent to a register other than the log's own, a line torn by a failed write, the padding of a digest to the register's width, and the byte order of the hardware register.
- Error texts and error kinds: a failure is an `Err` or `None`.
- KbsClient: hash algorithm selection is a yes or no of the challenge, and the provider of the token client is trusted to return matching pairs.
- Platform attesters, key wrapping internals, configuration, routing, logging and command-line tools.
