# Verification of the fd cache and the stat cache

This project models the part of the program that lets a file be partly downloaded, partly rewritten and still be turned back into one object: the page list, the list of written areas, the upload state machine, and the file entity that ties them to a sparse cache file and a remote object. A second, smaller part models the eviction and index logic of the stat cache. Everything is proved about the model; nothing was executed.

## How the model is built

| file | contents |
|---|---|
| `Limits.dfy` | the size limits of the upload service and arithmetic on block numbers |
| `Pages.dfy` | runs of bytes with a status, the byte map they stand for, list compression and why its result is unique |
| `MixPlan.dfy` | the copying compression, the splitting of large pages, the plan of a mixed upload, its requests |
| `PageList.dfy` | the class `PageList`, every method stated over the status of each byte |
| `StatsText.dfy` | the cache stats file as text, writing and reading |
| `Untreated.dfy` | the class `UntreatedParts`, an interval set with a "written last" mark |
| `StreamPlan.dfy` | how a stream upload cuts a file into parts, in the background and at a flush |
| `FdInfo.dfy` | the class `PseudoFdInfo` with the workers and the service it talks to |
| `UploadCount.dfy` | the counter and the semaphore as a step protocol with threads interleaving |
| `Content.dfy` | the content of a file as a byte array, and what every step does to it |
| `Flush.dfy` | why the object a flush builds is that byte array, and where the bookkeeping loses track |
| `PartLimit.dfy` | how many requests a mixed upload makes, and a file that needs too many |
| `Entity.dfy` | the class `FdEntity`: read, write, truncate, load, drop, punch, flush |
| `Witness.dfy` | inputs on which a stream upload loses bytes |
| `Session.dfy` | whole runs of operations on one file |
| `StatCache.dfy` | eviction and the index of pinned names |

A file is a sequence of bytes. `FdEntity.Content()` is what its user sees: the object's byte where the page list says "neither loaded nor modified" and the position lies below `size_orgmeta`, the cache file's byte elsewhere. `Valid` says that every unmodified byte is the object's byte, and that a file shorter than its object is marked as cut. A file is anchored when, besides, every unmodified byte lies below `size_orgmeta`, so that whatever is dropped can be fetched again. `Streaming` adds, for stream uploads, that every modified byte is untreated or in an uploaded block, that those bytes are in the cache file, and that each uploaded block is either on its way or was accepted with the right bytes outside the untreated list. A worker may read the cache file while a write passes it; the bytes the write changes may then arrive either way.

Requests to the service are contracts: a download delivers the object's bytes or fails, possibly after writing some of them; a part upload is refused or accepted, and refused if its number is above 10,000; a completion is refused if a listed part has no etag and may otherwise still fail. Requests for one part number take effect in the order of their launch, as the program assumes. Where a call can fail for reasons outside the model, the method chooses the outcome freely, so the contracts hold for all outcomes. The parameter `reliable` rules such failures out; with it, and with room on the disk, the contracts promise success. `OnTrack` says that nothing of the upload in progress has failed so far. The state of an upload also records every request made, so that the contracts can say which blocks a write or a flush sends and which it leaves alone.

## What was found

The code is modelled as it is. Where a natural claim is false of it, the exact condition is proved.

- `ClearParts` loses the tail when the area lies strictly inside a part: it reads the size it has just shortened (`ClearedIff`). Every caller clears the head of a part or everything, where it is exact.
- The fetch list of the mixed plan is compressed once more before use and so becomes a single stretch, from the first needed byte to the last (`MixHull` in the contract of `PlanMix`).
- `GetNoDataPageLists` spans everything between two unmodified bytes. `PunchHole` keeps the content exactly if each punched byte reads the same from the object (`PunchView`).
- A successful stream flush of more than one block does not update `size_orgmeta`. The file is anchored afterwards exactly if its size does not exceed it (`RowFlushStreamMultipart`); if it is not, dropping the cache loses every byte from `size_orgmeta` on that is not zero (`DropView`), and so does punching it (`PunchUnmodified`). A new file shows it (`StaleSize`), and it is reached by a write, a flush and the punching that `s3fs_write` does behind the flush (`PunchBehindFlush`).
- A stream flush of at most one block empties the untreated list but keeps the upload and its list. A block uploaded earlier and overwritten since is then kept as it was (`StaleBlock`). The upload stays right for whatever was written exactly if no listed block has an untreated byte (`ClearedRightIff`).
- A stream flush that fails after the launch forgets what was written and uploaded. The next one builds the right object exactly if it may not copy or the content is what the object was (`RetryIff`); if it may copy, it rebuilds the old object (`RetryCopies`), which `RetryRun` shows for a file written from end to end.
- A stream flush that fails before the launch has already taken the cancelled blocks off the upload list. Afterwards the upload is in order exactly if every modified byte of those blocks is untreated (`FlushParts`, `CancelLoses`). A block of which only the tail was written again is an input: its front is copied from the old object by the next flush (`ForgottenGap`, `GapLost`, `ForgetAndRetry`).
- A worker stores its result unconditionally, so a later success hides an earlier error (`ResultTells`, `LostError`). What stops such an upload is the check for empty etags at completion.
- The service takes 10,000 parts. The guard of the mixed flush compares the size of the file with 10,000 times the part size, but the plan may cut parts from 5 MB on: a file within the guard can need more requests than the service takes, and is never flushed (`GuardPasses`, `StripedCount`). It is flushed exactly if its requests are at most 10,000 (`RowFlushMixMultipart`, `MixFits`), which a file below 10,000 times 5 MB always satisfies (`SmallEnough`). The stream flush has no guard and succeeds exactly up to 10,000 times the part size (`RowFlushStreamMultipart`).
- Resetting the counter while workers are outstanding leaves tokens behind, and a later wait returns early (`Balance`, `EarlyReturn`).
- `Open` keeps an upload in progress in order exactly if nothing uploaded or untreated lies behind the new end, nor is to be fetched because of a larger `size_orgmeta`; after a shrink below the lists they name bytes the file no longer has (`ShrunkBlock`).
- A stats file written for an inode number of 2^63 or more is never read back (`SaveAndLoad`).
- A file that was created and not uploaded yet is pinned so that its directory shows it. For the root directory this fails: its names are kept under two slashes and looked for under one (`GetNotruncateCache`, `RootMissed`, `RootHidden`).
- The flag `uploaded` of a listed part is never set, so the flush waits exactly if it cancels a block (`WaitMeansCancel`).

## Model

| member | source | states |
|---|---|---|
| `Pages.CompactKeeps` | src/fdcache_page.cpp:392-427 | compressing any sorted, disjoint list of real pages reaches the canonical form over the same extent and changes no byte's status; holes read as unloaded and unmodified |
| `Pages.CanonicalUnique` | src/fdcache_page.cpp:392-427 | two canonical lists over one extent with the same byte map are the same list |
| `Pages.FlatUnique` | src/fdcache_page.cpp:392-427 | the page list of a non-empty file is determined by its byte map |
| `MixPlans.RawCompress` | src/fdcache_page.cpp:44-123 | the copying compression with its flag arguments computes `Compressed`, hole filling included |
| `MixPlans.CompressedKeeps` | src/fdcache_page.cpp:73-138 | its result is the canonical form of the byte map seen through the ignored flags |
| `MixPlans.CompressionsAgree` | src/fdcache_page.cpp:73-123 | without ignored flags both compressions give one list, the only canonical one with that byte map |
| `MixPlans.ParsePartsize` | src/fdcache_page.cpp:140-174 | the splitting loop computes `Parsed` |
| `MixPlans.ParsedKeeps` | src/fdcache_page.cpp:140-174 | splitting keeps extent and statuses, no modified piece exceeds twice the part size, and every piece but the last stays at least 5 MB |
| `MixPlans.PiecesEven` | src/fdcache_page.cpp:140-174 | all pieces of a modified page but the last have the part size, and the last is longer, up to twice that |
| `MixPlans.PlanMix` | src/fdcache_page.cpp:649-748 | the plan tiles the file within the limits; every modified byte is uploaded, every other uploaded byte is fetched first; the fetch list is the exact hull; of a long unmodified stretch at most the head is uploaded |
| `MixPlans.MixPartCount` | src/fdcache_page.cpp:649-748 | a plan has at most size / 5 MB + 1 parts |
| `MixPlans.MixPlanKeeps` | src/fdcache_page.cpp:649-748 | the same of the plan as a function of the page list |
| `MixPlans.MixRequests` | src/s3fs_threadreqs.cpp:1061-1187 | the requests made of a plan: one per modified page, a cut sequence per copied page |
| `MixPlans.RequestsKeep` | src/s3fs_threadreqs.cpp:1061-1187 | the requests tile the file as the plan does, all but the last have at least 5 MB, uploads and copies stay within their limits |
| `PartLimits.SmallEnough` | src/s3fs_threadreqs.cpp:1061-1187 | a mixed upload makes at most size / 5 MB + 1 requests, copy pieces included, so that a file below 10,000 times 5 MB needs no more than the service takes |
| `PartLimits.StripedCount` | src/fdcache_page.cpp:649-748 | a file of n stripes of 16 MB, 5 MB of each written, needs at least 2n requests whatever the part size |
| `PartLimits.GuardPasses` | src/fdcache_entity.cpp:1681-1683 | a file that the check of its size lets pass and that needs more requests than the service takes |
| `PartLimits.FlagsDecide` | src/fdcache_page.cpp:649-748 | whether a flush meets a limit depends on the size and the modified bytes only |
| `PageLists.PageList.Init` | src/fdcache_page.cpp:373-381 | one page of the given flags; a negative size leaves none |
| `PageLists.PageList.Compress` | src/fdcache_page.cpp:392-427 | the in-place loop with its insertions and erasures computes `Compact` |
| `PageLists.PageList.Parse` | src/fdcache_page.cpp:429-444 | afterwards no page has the position strictly inside, no byte changes its status; found exactly if the position is in the list |
| `PageLists.PageList.Resize` | src/fdcache_page.cpp:446-485 | the byte map is cut or grown with the given flags; a shrink is remembered exactly if it counts as a modification |
| `PageLists.PageList.SetPageLoadedStatus` | src/fdcache_page.cpp:503-542 | exactly the bytes of the area get the status; bytes between the old end and the area become unloaded with the call's modified flag |
| `PageLists.PageList.ClearAllModified` | src/fdcache_page.cpp:811-821 | every byte loses its modified flag and nothing else |
| `PageLists.PageList.GetUnloadedPages` | src/fdcache_page.cpp:603-647 | the areas found are as few as can be, in order, and hold exactly the bytes of the range that are neither loaded nor modified |
| `PageLists.PageList.GetTotalUnloadedPageSize` | src/fdcache_page.cpp:562-601 | the number of bytes of the range that are neither loaded nor modified; with a limit only those in no such piece of the range of at least that length |
| `PageLists.PageList.GetPageListsForMultipartUpload` | src/fdcache_page.cpp:649-748 | the contract of `PlanMix` for the list at hand, which stays as it is |
| `PageLists.PageList.GetNoDataPageLists` | src/fdcache_page.cpp:750-785 | the areas returned hold exactly the bytes that lie between two unmodified ones |
| `PageLists.PageList.IsModified` | src/fdcache_page.cpp:798-809 | true exactly if some page is flagged or bytes were lost to a shrink |
| `PageLists.PageList.IsPageLoaded` | src/fdcache_page.cpp:487-501 | true exactly if every byte of the range is loaded |
| `StatsTexts.Serialize` | src/fdcache_page.cpp:823-850 | head line and one line per page |
| `StatsTexts.Deserialize` | src/fdcache_page.cpp:852-980 | accepted exactly if the inode agrees, all rows have three fields and the total agrees with the rows; the byte map is then what the rows paint, otherwise the list is empty |
| `StatsTexts.SaveAndLoad` | src/fdcache_page.cpp:823-980 | writing and reading back gives the same list exactly if the inode is not 0 and below 2^63 |
| `StatsTexts.NumberShow` | src/string_util.cpp:65-93 | a printed number reads back as itself if it fits in 63 bits and as 0 otherwise |
| `StatsTexts.NumberSigned` | src/string_util.cpp:65-93 | space in front and a sign are accepted, and the range is that of a signed 64-bit number |
| `StatsTexts.NumberMalformed` | src/string_util.cpp:65-93 | any other text counts as 0 |
| `StatsTexts.NulEnds` | src/fdcache_page.cpp:876-882 | what follows a NUL in the file is not read |
| `StatsTexts.HeadBack` | src/fdcache_page.cpp:885-920 | the head line written for an inode is accepted exactly in that range |
| `StatsTexts.OldRow` | src/fdcache_page.cpp:925-955 | a row of three fields is read as unmodified, one of fewer is refused |
| `StatsTexts.OldHead` | src/fdcache_page.cpp:885-920 | a head without an inode is the size alone and agrees with any inode |
| `Untreated.UntreatedParts.AddPart` | src/fdcache_untreated.cpp:36-72 | set union in normal form; exactly one part carries the new tag, and it contains the area |
| `Untreated.UntreatedParts.ClearParts` | src/fdcache_untreated.cpp:109-161 | a set difference in normal form exactly if the area lies strictly inside no part |
| `Untreated.ClearedIff` | src/fdcache_untreated.cpp:109-161 | the same for the list function the loop computes, both directions |
| `Untreated.SeparateUnique` | src/fdcache_untreated.cpp:36-72 | lists in normal form with the same bytes have the same areas |
| `Untreated.UntreatedParts.ClearAll` | src/fdcache_untreated.h:57 | leaves nothing |
| `Untreated.UntreatedParts.GetLastUpdatedPart` | src/fdcache_untreated.cpp:74-107 | the area written last, cut to the maximum, nothing if shorter than the minimum |
| `Untreated.UntreatedParts.GetLastUpdatePart` | src/fdcache_untreated.cpp:166-184 | the area written last |
| `Untreated.UntreatedParts.ReplaceLastUpdatePart` | src/fdcache_untreated.cpp:186-205 | replaces that part, or removes it when the new size is zero |
| `Untreated.UntreatedParts.RemoveLastUpdatePart` | src/fdcache_untreated.cpp:207-221 | removes that part |
| `Untreated.ReplaceLastUpdateUntreatedPart` | src/fdcache_entity.cpp:2638-2655 | removes exactly the uploaded area from the untreated bytes and keeps the normal form |
| `Untreated.HeadNotStraddled` | src/fdcache_entity.cpp:2357-2372 | the area the callers clear is the head of a part, where clearing is exact |
| `StreamPlans.ExtractUploadPartsFromUntreatedArea` | src/fdcache_fdinfo.cpp:614-688 | which blocks leave the list, and which full blocks are to be uploaded; the area grows to the end of a cancelled last block; too small an area changes nothing |
| `StreamPlans.CancelOverlapped` | src/fdcache_fdinfo.cpp:650-673 | the erasing loop removes exactly the blocks that meet the area, in order |
| `StreamPlans.TakeUntreated` | src/fdcache_fdinfo.cpp:737-796 | the current area gets exactly its untreated bytes, the rest stays for the later areas |
| `StreamPlans.FindOverlap` | src/fdcache_fdinfo.cpp:806-825 | finds the listed part that meets the area from the cursor on, and reports two of them |
| `StreamPlans.PlanTouched` | src/fdcache_fdinfo.cpp:902-967 | the gaps of a written block are fetched exactly; the first gap goes to the preceding copy exactly under the stated limits |
| `StreamPlans.AreaStands` | src/fdcache_fdinfo.cpp:830-969 | whatever one area holds, lists that came from a tiling of the file up to it come from a tiling of the file up to its end, and the search for its block never fails |
| `StreamPlans.ExtractUploadPartsFromAllArea` | src/fdcache_fdinfo.cpp:706-972 | the lists come from a tiling of the file with one part per block; fetched are exactly the uploaded bytes that were neither written nor in a cancelled block; kept and cancelled are exactly the untouched and touched blocks; wait exactly if a block is cancelled; uploads contain written bytes if copying is allowed; an upload starts with its block, or behind its first gap exactly if that gap joins the copy in front of it under the stated limits |
| `StreamPlans.PlanLimits` | src/fdcache_fdinfo.cpp:730-967 | part k has number k + 1 and starts where the one before ends; all but the last have at least 5 MB, kept parts exactly m and uploads at most m bytes, copies less than 2m and at most m or 5 GB |
| `StreamPlans.OneKind` | src/fdcache_fdinfo.cpp:730-970 | every byte belongs to exactly one of the kept, uploaded and copied parts |
| `StreamPlans.DivisionMeaning` | src/fdcache_fdinfo.cpp:827-969 | written bytes are sent; kept bytes were uploaded and not written since; copied bytes were neither written nor uploaded; nothing written or uploaded is fetched |
| `StreamPlans.WaitMeansCancel` | src/fdcache_fdinfo.cpp:876-879 | no listed block is ever marked as uploaded, so the flush waits exactly if it cancels one |
| `FdInfos.PseudoFdInfo.InsertUploadPart` | src/fdcache_fdinfo.cpp:314-340 | the part is inserted in the order of part numbers; wrong arguments and a missing upload are refused |
| `FdInfos.InsertedKeeps` | src/fdcache_fdinfo.cpp:329-334 | a new number keeps the list strictly ordered and adds just that part |
| `FdInfos.PseudoFdInfo.ParallelMultipartUpload` | src/fdcache_fdinfo.cpp:342-382 | all parts are listed, launched and counted, or the call fails exactly on a missing upload, a descriptor that cannot be opened, a wrong part or a refusal of the thread pool; then exactly the parts in front of that are launched and counted, and a refused one is listed |
| `FdInfos.PseudoFdInfo.ParallelMultipartUploadAll` | src/fdcache_fdinfo.cpp:384-402 | uploads and copies are listed, none is left in flight, and accepted parts are right; with a reliable service all parts are accepted; after a failure exactly the requests launched before it are in flight and counted |
| `FdInfos.PseudoFdInfo.PreMultipartUploadRequest` | src/fdcache_fdinfo.cpp:410-427 | starts an upload the service knows no part of, or leaves everything |
| `FdInfos.PseudoFdInfo.ResetUploadInfo` | src/fdcache_fdinfo.cpp:188-196 | keeps the accounting exactly if the counter was zero |
| `FdInfos.PseudoFdInfo.ClearUploadInfo` | src/fdcache_fdinfo.cpp:174-186 | keeps it exactly if it cancels first or the counter was zero |
| `FdInfos.PseudoFdInfo.UploadBoundaryLastUntreatedArea` | src/fdcache_fdinfo.cpp:446-548 | launches exactly the whole blocks inside the area written last, relists them, takes exactly their bytes off the untreated list, keeps accepted parts right and an upload without failures one; without such a block it succeeds and nothing at all changes; with one it fails exactly if an upload has to be started and cannot, which changes no list |
| `FdInfos.WholeRun` | src/fdcache_fdinfo.cpp:466-482 | the blocks launched are exactly the whole blocks of which every byte lies in the area, and there are none exactly if no block does |
| `FdInfos.LargestAligned` | src/fdcache_fdinfo.cpp:471-482 | a block lies inside the area exactly if its number is in the run that is uploaded |
| `FdInfos.BoundaryConserves` | src/fdcache_fdinfo.cpp:540-547 | a byte is untreated or in a listed block afterwards exactly if it was before |
| `FdInfos.PseudoFdInfo.EndWorker` | src/s3fs_threadreqs.cpp:317-353 | whenever a worker ends, with whatever outcome, accepted parts stay right |
| `FdInfos.FinishFaithful` | src/s3fs_threadreqs.cpp:317-353 | the same for the lists of requests and parts |
| `FdInfos.ResultTells` | src/s3fs_threadreqs.cpp:346-350 | the shared result is 0 exactly if every failed request is followed by an accepted one |
| `FdInfos.LostError` | src/s3fs_threadreqs.cpp:346-350 | a failure followed by a success reads as success |
| `FdInfos.PseudoFdInfo.WaitAllThreadsExit` | src/fdcache_fdinfo.cpp:550-576 | ends with counter, semaphore and requests at zero and accepted parts right; with a reliable service and no failure before, every listed part was accepted |
| `FdInfos.PseudoFdInfo.CancelAllThreads` | src/fdcache_fdinfo.cpp:578-593 | the same, for a cancellation |
| `FdInfos.PseudoFdInfo.GetEtaglist` | src/fdcache_fdinfo.cpp:245-264 | part numbers strictly ascend; an etag is empty exactly if a listed part did not arrive; otherwise the service builds the listed parts in file order |
| `FdInfos.EtagsMean` | src/curl.cpp:3447-3453 | the check for empty etags passes exactly if every listed part was accepted, and what is built then are those parts |
| `FdInfos.PseudoFdInfo.SendPlan` | src/fdcache_entity.cpp:1900-1957 | after a launch the upload list is the plan, part for part, and nothing is in flight; the requests made are exactly the uploads and copies of the plan, none if it does not come to a launch; none of them overtakes an earlier request for its number if the flush waits or no such request is in flight; it launches and every part is accepted if the service is reliable, nothing failed before and no part number is above 10,000 |
| `FdInfos.FinalList` | src/fdcache_fdinfo.cpp:314-340 | inserting the uploads and then the copies into the kept parts gives the plan in file order |
| `FdInfos.AssembledIs` | src/curl.cpp:3438-3461 | the parts of a tiling, each holding its bytes of a target, concatenate to the target |
| `UploadCounts.Balance` | src/fdcache_fdinfo.cpp:188-224 | in every run tokens and running workers match the counter exactly if no reset came at a counter above zero |
| `UploadCounts.WaitTakes` | src/fdcache_fdinfo.cpp:550-576 | a wait takes exactly as many tokens as the counter says, ends within workers plus counter steps, and leaves no worker if nothing was forgotten |
| `UploadCounts.WaitProgress` | src/fdcache_fdinfo.cpp:562-573 | a wait never hangs |
| `UploadCounts.EarlyReturn` | src/fdcache_fdinfo.cpp:188-196 | a run in which a reset makes a wait return while a worker is running |
| `Contents.FetchView` | src/fdcache_entity.cpp:1038-1066 | fetching an area as far as the object has it leaves the content unchanged |
| `Contents.WriteView` | src/fdcache_entity.cpp:2391-2400 | a write changes the content as it changes a byte array |
| `Contents.TruncateView` | src/fdcache_entity.cpp:403-435 | a truncation cuts the content or extends it with zeros, whatever size the headers report |
| `Contents.DropView` | src/fdcache_entity.cpp:2008-2014 | dropping an unmodified cache loses nothing exactly if all bytes from `size_orgmeta` on are zero |
| `Contents.PunchView` | src/fdcache_entity.cpp:2558-2573 | punching loses nothing exactly if every punched byte reads the same from the object |
| `Contents.PunchUnmodified` | src/fdcache_entity.cpp:2558-2573 | of an unmodified file exactly the punched bytes from `size_orgmeta` on that are not zero are lost |
| `Contents.StaleSize` | src/s3fs.cpp:3022-3032 | a new file after its first upload by parts loses its content when it is punched or dropped |
| `Contents.PunchAnchored` | src/fdcache_entity.cpp:2558-2573 | in an anchored file only modified bytes can be lost |
| `Contents.FlushedView` | src/fdcache_entity.cpp:1983-1995 | after an upload the file is an unmodified copy of the object, anchored exactly if `size_orgmeta` reaches its end |
| `Flushes.MixObject` | src/fdcache_entity.cpp:1685-1707 | the requests of a mixed plan, once the fetch list is loaded, build exactly the content |
| `Flushes.StreamObject` | src/fdcache_entity.cpp:1848-1981 | when every listed part was accepted, the parts concatenate to exactly the content |
| `Flushes.ObjectIff` | src/fdcache_entity.cpp:1848-1981 | whatever the state of the bookkeeping, the object a flush builds is the content exactly if every copied byte reads the same from the old object and every kept block is the content's |
| `Flushes.KeptRight` | src/fdcache_entity.cpp:1848-1860 | the blocks the division keeps are right with nothing untreated |
| `Flushes.ClearedRight` | src/fdcache_entity.cpp:1837-1846 | emptying the untreated list keeps the upload right for the bytes at hand exactly if no listed part is stale, requests in flight or not |
| `Flushes.ClearedRightIff` | src/fdcache_entity.cpp:1837-1846 | ... and for whatever the untreated bytes are exactly if no listed block has one, which a caller can check |
| `Flushes.UntouchedStays` | src/fdcache_entity.cpp:1837-1846 | without such a block it stays right, requests in flight or not |
| `Flushes.StaleBlock` | src/fdcache_entity.cpp:1797-1846 | an overwritten uploaded block is such a part |
| `Flushes.RetryCopies` | src/fdcache_entity.cpp:1946-1957 | with nothing untreated and nothing uploaded, a flush that may copy rebuilds the old object |
| `Flushes.RetryIff` | src/fdcache_entity.cpp:1946-1957 | such a flush builds the content exactly if it may not copy or the content is the head of the old object |
| `Entities.FdEntity.constructor` | src/fdcache_entity.cpp:556-610 | a freshly opened file has the object's content, and the invariants of both upload modes hold for every part size |
| `Entities.FdEntity.Load` | src/fdcache_entity.cpp:1025-1071 | the content is unchanged, only bytes to be fetched change in the cache file, no status outside the range changes, on success the range is cached, and only a failing request makes it fail |
| `Entities.FdEntity.Read` | src/fdcache_entity.cpp:2026-2088 | on success as many bytes as were asked for, or as the content has behind the start, and byte k of them is byte start + k of the content; the content is unchanged; what is cached already is read without a request, and with room nothing is fetched but the range and what is read ahead; with room and a reliable service it succeeds |
| `Entities.FdEntity.NothingToFlush` | src/fdcache_entity.cpp:1386-1390 | a flush left out because nothing was modified is of a file that already is the object |
| `Entities.FdEntity.Write` | src/fdcache_entity.cpp:2090-2149 | stream upload: the content is that of a byte array after the write and the invariant of the upload holds; exactly the bytes written and the gap filled change their status, and exactly they join the untreated or listed ones; exactly the blocks are launched that the written area completes, together with untreated bytes that adjoin it; if it completes none, the write succeeds and the upload stays as it is, whatever the service would say; otherwise it fails exactly if an upload cannot be started |
| `Entities.FdEntity.WriteStreamUpload` | src/fdcache_entity.cpp:2382-2421 | the same behind the gap filling |
| `Entities.DueNewest` | src/fdcache_fdinfo.cpp:446-482 | the blocks completed by an area, read off the untreated bytes before it was added, are the whole blocks of the part written last |
| `Entities.FdEntity.WriteMix` | src/fdcache_entity.cpp:2303-2376 | mixed upload: the same, or out of space with only the gap filled; the write goes past the cache only if an upload is in progress or there is no room for more than one block |
| `Entities.FdEntity.WorkerEnds` | src/s3fs_threadreqs.cpp:317-353 | a worker may end between any two operations: content and invariant stay |
| `Entities.FdEntity.ReserveDiskSpace` | src/fdcache_entity.cpp:2002-2024 | the content of an anchored file survives the dropping of its cache |
| `Entities.FdEntity.DropCache` | src/fdcache_entity.cpp:2008-2014 | the exact condition of `DropView` for the file at hand |
| `Entities.FdEntity.Open` | src/fdcache_entity.cpp:403-435 | the content is cut or zero-extended; `size_orgmeta` becomes the smaller of the file's new size and the object's size, as far as the call gives them; an upload in progress stays in order exactly if nothing untreated or uploaded lies behind the new end or is to be fetched because of a larger `size_orgmeta`, which an anchored file rules out |
| `Entities.FdEntity.PunchHole` | src/fdcache_entity.cpp:2536-2575 | punches exactly what lies between unmodified bytes; the content survives exactly under the condition of `PunchView`, for an unmodified file that of `PunchUnmodified`, always right after a flush that left the file anchored |
| `Entities.FdEntity.RowFlushMixMultipart` | src/fdcache_entity.cpp:1639-1783 | from one part on it fetches only what lies between two bytes that are uploaded without having been written; success: the object is the content, nothing is modified or untreated; failure: the object is untouched; the content never changes; too large a file is refused, and with a reliable service any other succeeds exactly if it needs at most 10,000 requests |
| `Entities.FdEntity.RowFlushStreamMultipart` | src/fdcache_entity.cpp:1788-1998 | what `FlushParts` asks for above one block, nothing of the upload below; success: the object is the content, nothing is modified or untreated, anchored exactly if the size does not exceed `size_orgmeta`; failure: the object is the old one or the content; the content never changes; with room, a reliable service and no failed request before it succeeds exactly if the file has at most 10,000 times the part size |
| `Entities.FdEntity.FlushParts` | src/fdcache_entity.cpp:1848-1997 | the part for more than one block; either nothing is launched and it fails, or the requests are those of one division of the file and cover exactly the bytes that are not in a kept block; without copying allowed none is a copy, and on success everything unloaded is fetched; with it, each upload has an untreated byte, and bytes are fetched only in blocks with one; no request overtakes an earlier one if what is in flight is listed; a failure leaves the untreated list and the untouched blocks, or forgets all; the upload is then in order exactly if every modified byte is still untreated or in a listed block; more than 10,000 parts fail |
| `Entities.FlushDemands` | src/fdcache_fdinfo.cpp:830-969 | the requests of a division, read byte by byte: they cover what is not kept, copies hold nothing written or uploaded, and copying is a matter of the setting |
| `Entities.FlushFetches` | src/fdcache_fdinfo.cpp:830-969 | what the fetch list of a division means for each byte with and without copying |
| `Entities.FdEntity.FlushWhole` | src/fdcache_entity.cpp:1797-1846 | the part for at most one block; the upload is in order afterwards exactly if the listed blocks are right and were loaded, for which it is enough that no block was written since and all were loaded before |
| `Entities.CancelLoses` | src/fdcache_fdinfo.cpp:876-882 | what a failure before the launch leaves out are exactly the modified bytes of cancelled blocks that are not untreated |
| `Entities.RestStreams` | src/fdcache_fdinfo.cpp:876-882 | the blocks the division leaves on the list are in order with the old untreated list exactly if no modified byte is left out |
| `Entities.WholeStreams` | src/fdcache_entity.cpp:1837-1846 | when the whole file becomes the object, the listed blocks stay in order exactly if they are right without an untreated list and loaded |
| `Entities.PlanTaken` | src/fdcache_entity.cpp:1946-1952 | what a division of at most 10,000 parts uploads lies in the cache file and what it copies in the object, so that no request has to fail |
| `Entities.FewParts` | src/fdcache_entity.cpp:52 | if every part of a division was accepted there are at most 10,000 |
| `Witnesses.RetryLoses` | src/fdcache_entity.cpp:1946-1957 | a file as long as its object, written from end to end, behind a failed flush: a reliable service takes all requests of the next one and keeps the old object, which is not the content |
| `Witnesses.RetryRun` | src/fdcache_entity.cpp:1848-1976 | such a flush request by request |
| `Witnesses.ForgottenGap` | src/fdcache_fdinfo.cpp:876-882 | an uploaded block whose tail was written again is forgotten by a failure before the launch, and the bytes in front of the tail with it |
| `Witnesses.GapLost` | src/fdcache_fdinfo.cpp:902-967 | the next flush copies those bytes with the block in front of them, and the object is not the content |
| `Witnesses.ForgetAndRetry` | src/fdcache_entity.cpp:1848-1976 | the two flushes, division by division and request by request |
| `Witnesses.ShrunkBlock` | src/fdcache_entity.cpp:403-435 | a truncation into an uploaded block leaves the upload out of order |
| `Sessions.RunStream` | src/fdcache_entity.cpp:1788-2149 | any sequence of writes, reads, truncations and flushes with stream upload, workers ending at any time: the file is the byte array the operations make of it, each successful read delivers its bytes at the place asked for, flushes make it the object; only reads and flushes fail, with a reliable service nothing does as long as the file has at most 10,000 times the part size, and beyond that no flush that has something to do succeeds; the run stops only behind a truncation that shrinks the file, a failed flush, or a flush of exactly one block |
| `Sessions.ReadBytes` | src/fdcache_entity.cpp:2026-2088 | an answer of a run, byte by byte: as many bytes as asked for or as the file has, each from its place |
| `Sessions.StepStream` | src/fdcache_entity.cpp:1788-2149 | one operation of such a run; a truncation leaves the upload in order exactly if nothing untreated or uploaded lies behind the new end |
| `Sessions.FlushStream` | src/fdcache_entity.cpp:1386-1409 | a flush, left out or not; behind a successful one the run goes on unless the file has one block that is listed and was written or not loaded |
| `Sessions.RunMix` | src/fdcache_entity.cpp:1639-2149 | the same with mixed upload, where the cache may be dropped in between and punched behind a flush, and nothing ends a run: every operation is performed and the object is the file as the last successful flush found it; with room and a reliable service only flushes of a file from 10,000 times 5 MB on fail |
| `Sessions.FlushMix` | src/s3fs.cpp:3022-3032 | a flush and the punching behind it keep the content; with a reliable service it fails only if it needs too many requests |
| `Sessions.RanNext` | src/fdcache_entity.cpp:1788-2149 | an operation that does what it does to a byte array makes a recorded run longer by one |
| `Sessions.BehindFlush` | src/fdcache_entity.cpp:1788-1998 | in every recorded run the object is the file behind a successful flush |
| `Sessions.PunchBehindFlush` | src/s3fs.cpp:3022-3032 | a new file of more than one block, written, flushed and punched, has lost its content, although the object has it |
| `StatCaches.CompareTime` | src/cache.cpp:47-65 | negative, zero or positive as the first time lies before, at or behind the second in nanoseconds of the clock |
| `StatCaches.OlderIsOrder` | src/cache.cpp:80-92 | the order by time and hits is a strict weak order |
| `StatCaches.SelectOldest` | src/cache.cpp:541-561 | the scan picks the oldest free entries, as many as the count less the pinned entries allows, although the count shrinks on the way |
| `StatCaches.EvictionLeaves` | src/cache.cpp:535-568 | no pinned entry goes, no evicted entry is younger than a free one that stays, fewer than the cache's size of free entries remain |
| `StatCaches.EvictionByClock` | src/cache.cpp:541-561 | by the clock: an evicted entry is dated no later than every free entry that stays, and at equal dates was not hit more often |
| `StatCaches.StatCache.TruncateCache` | src/cache.cpp:517-571 | only acts when due; drops exactly the free entries whose date plus the expiry time lies before now, then, of the free entries left, the earliest by the clock until fewer than the cache's size remain; pinned entries and the index stay |
| `StatCaches.StatCache.AddStat` | src/cache.cpp:323-389 | the new entry replaces the old one; of the others a cached key takes only its twin with it, a new key below the cache's size takes none, and a new key at that size what a truncation evicts; the index agrees |
| `StatCaches.StatCache.AddNoObjectCache` | src/cache.cpp:441-484 | the same for a missing object, never pinned |
| `StatCaches.StatCache.GetStat` | src/cache.cpp:193-274 | when it hits, by the clock, and what it deletes, and that the index agrees |
| `StatCaches.StatCache.DelStatHasLock` | src/cache.cpp:573-602 | exactly the key and its twin with or without slash go, and the index agrees |
| `StatCaches.StatCache.ChangeNoTruncateFlag` | src/cache.cpp:486-509 | counts pins and keeps the index in agreement at the first and last one |
| `StatCaches.StatCache.AddNotruncateCache` | src/cache.cpp:730-758 | lists the name once under its directory |
| `StatCaches.StatCache.DelNotruncateCache` | src/cache.cpp:760-787 | takes the name off, and the directory with its last name |
| `StatCaches.StatCache.GetNotruncateCache` | src/cache.cpp:804-832 | to the names given it adds those of the pinned files of the directory and no other, without repetition; for the root directory it adds none, so that a pinned file is missing exactly if it is a file of the root directory |
| `StatCaches.ListedIn` | src/cache.cpp:730-758 | below the root the index lists under a directory exactly its pinned files |
| `StatCaches.RootMissed` | src/cache.cpp:736-741 | the pinned files of the root directory are listed under two slashes, and nothing is listed under one |
| `StatCaches.RootHidden` | src/s3fs.cpp:3310-3313 | a file created in the root directory is pinned and not shown |
| `StatCaches.AgreesAt` | src/cache.cpp:323-389 | in agreement, a file is listed exactly if it is cached with a pin |
| `StatCaches.SplitJoins` | src/cache.cpp:736-741 | directory and name determine the path |

## Left out

- The disk-full paths that send a file past the cache (`NoCacheLoadAndPost` and its requests): they cut the cache file to nothing in mid-run.
- `Entities.FdEntity.WriteMix`: reports that a write goes past the cache and not what becomes of it.
- `Entities.FdEntity.RowFlushMixMultipart`: reports that a flush completes an upload past the cache, or has to begin one, and not what becomes of it.
- `Entities.FdEntity.RowFlushStreamMultipart`: requires room on the disk or a modified byte, since without either the cache of a file to be flushed may be dropped first.
- `Entities.FdEntity.FlushParts`: the same.
- `Entities.FdEntity.Read`: without room it requires that dropping the cache loses nothing, for which `DropCache` has the exact condition; the option to reload what is cached, which no caller sets, is not modelled.
- `Entities.FdEntity.constructor`: models a file opened without a cached copy, at the size of its object; an opened cache file starts from a page list read by `Deserialize`.
- `Entities.FdEntity.Open`: models the branch for a file that is open already, with one handle; headers that come along are taken to report the object's size.
- `StatsTexts.Deserialize`: requires that no row of the text has a negative number, which the program never writes.
- The invariants of a stream upload are stated for one handle per file; two handles keep separate upload lists over one untreated list.
- `FdInfos.PseudoFdInfo.SendPlan`, and the background upload: a thread pool that refuses a request and a descriptor that cannot be opened are modelled in `ParallelMultipartUpload` and not carried further; the program then clears the upload without a wait, and the effect on the counter is that of `UploadCounts.Balance`.
- `PageLists.PageList.GetNoDataPageLists`: models the call with its default arguments, the whole file, which is the only one there is.
- The configured limit on the size of a file, and the failure of system calls on the cache file other than a hole that cannot be punched.
- Offsets and sizes are unbounded integers; the width of `off_t` matters only in the stats file, where it is modelled.
- Two operations never interleave: each runs under the entity's lock. Workers may end at any point between two operations and in every wait.
- The sparse-file checks, the normal multipart mode (neither mixed nor stream), header metadata, mirror files, `FdManager`, and the symbolic link cache.
- `StatCache::Clear` empties the entries and not the index; only the destructor calls it, so no reachable state shows the difference.
- `StatCaches.SplitJoins`: takes paths as absolute and without repeated slashes; for others the library's split need not be injective.
- The order in which the stat cache is scanned is any order, of which the sorted one is an instance; sorting by age leaves ties in any order.
