# AnoMap in Dafny

A model of the state machines of AnoMap, a security-camera client, and proofs about them. Qt, OpenSSL, FFmpeg and
Boost.Asio are outside; what they hand in (decoded records, bytes, decrypted payloads, timer and lock events) comes as
parameters or steps.

| files | what they hold |
|---|---|
| `CropGeometry`, `CameraGrid`, `CameraModel` | the slot grid: its operations as functions on a grid value, and the class with the source's loops, each method proved to compute its function and to emit its signals in order |
| `CameraGridOperations`, `GridSignals` | what each grid operation and each of its signals is, row by row and field by field |
| `CameraGridInvariant`, `CameraGridTheorems`, `SplitMergeRoundTrip` | what every sequence of grid calls keeps, and what it means: one picture per camera, ids, store agreement, split and merge |
| `VideoManager` | the slot index and the stream workers that follow the grid's signals |
| `UdpReassembly`, `UdpTimer`, `UdpTheorems`, `UdpProgress` | image fragments, retransmission and the reassembly timer, against a sender and a network that loses, repeats, reorders and mixes frames |
| `ThreadPool`, `ThreadPoolTheorems` | workers, mutex, condition variable, submitters and destructor as a transition system; the critical sections as a class |
| `CameraIds`, `CameraStore`, `DeviceStore`, `DeviceTheorems`, `DeviceModel` | the stores behind the models and the id they cut out of stream URLs |
| `Bytes`, `Framing` | frames on the TCP stream, with and without TLS, read in pieces of any size |
| `Gating`, `GatingTheorems`, `GatingProgress`, `CallbackOrder`, `Reconnect` | handshake, connected flag, strand and message dispatch of one connection, what reaches the application and the socket, the order of its callbacks, and what one connection leaves to the next |
| `Debouncer`, `Nv12` | device commands and their timer; the copy of a decoded picture |
| `Strings` | `find` and `lastIndexOf` |

A class method `M` that changes state ensures `State() == F(old(State()), ...)` for a function `F`; the theorems are
about the functions and about sequences of steps. Where a promise does not hold for all inputs, the lemma ending in
`Iff` gives the condition under which it does, and a lemma with a concrete run shows the other case.

Facts about the program that the proofs bring out:

- A title is restored by a merge if and only if it was not empty (`MarkerComesOff`): the marker is cut off only behind
  a non-empty prefix.
- A frame numbered 255 that comes first is never watched by the timer, and any other is (`FirstFrameWatchedIff`); the
  scan of a frame of 256 fragments does not come to an end (`ScanEndsIff`, `EndlessScanIsReached`); fragments repeated
  after completion can deliver an image again (`DuplicateDeliversTwice`, `DeliveredOnceIff`).
- The history bound in force is 60 entries; a comment in the source says 20.
- `Submit` without a stop check can leave work in the queue of a pool that has shut down, and nothing else can
  (`DrainsIff`).
- The connected flag can be left up by a session that was told to end, and then the next session writes application
  frames before its handshake; `NextSessionGatedIff` says exactly when, `NextSessionCanStartUp` shows that it happens.
- A callback can come before the connected handler, though never before the end of the handshake, unless the handshake
  ends in a frame of its own kind (`CallbackOrderIff`).
- The copy of the chroma plane in one piece is one half row too long when the height is odd (`ChromaIsRowsIff`).

## Model

| member | source | states |
|---|---|---|
| CropGeometry.TilesPartitionFrame | Qt/Back/Models/CameraModel.cpp:122-153 | for every valid tile count and direction a point of the unit frame is covered by tile k exactly when k is the tile its coordinates call for: the crop rectangles are disjoint and leave no gap |
| CropGeometry.BandIsSlice | Qt/Back/Models/CameraModel.cpp:125-142 | the n-way slices of an axis, the last one ending at exactly 1, are the n equal bands of it |
| CameraGridInvariant.WithoutMembers | Qt/Back/Models/CameraModel.cpp:238-248 | the rows a removal of one group leaves are exactly those outside it |
| CameraGridInvariant.WithoutConcat | Qt/Back/Models/CameraModel.cpp:238-248 | a removal works stretch by stretch, so what is left keeps its order |
| CameraGrid.FirstOf | Qt/Back/Models/CameraModel.cpp:224-234 | the merge position is the first row of the group |
| CameraGridInvariant.SwapKeepsInv | Qt/Back/Models/CameraModel.cpp:79-112 | a swap keeps rows well-formed, slots distinct, groups complete and marks live |
| CameraGridInvariant.SplitKeepsInv | Qt/Back/Models/CameraModel.cpp:163-214 | so does a split, whose tiles form one complete group |
| CameraGridInvariant.MergeKeepsInv | Qt/Back/Models/CameraModel.cpp:216-270 | so does a merge at any tile |
| CameraGridInvariant.MergeMarks | Qt/Back/Models/CameraModel.cpp:236-248 | a merge leaves marked exactly the marked slots that still have a row |
| CameraGridInvariant.AutoSplitAllKeepsInv | Qt/Back/Models/CameraModel.cpp:272-285 | so does the auto-split pass, for any table of tile counts |
| CameraGridInvariant.SnapshotKeys | Qt/Back/Models/CameraModel.cpp:355-361 | the hash of a snapshot has exactly its non-empty ids, each with the last camera of that id |
| CameraGridInvariant.NewRowsAre | Qt/Back/Models/CameraModel.cpp:417-444 | an update appends one full-frame row per missing camera, with consecutive new slots, in the hash's order |
| CameraGridInvariant.AbsorbKeepsInv | Qt/Back/Models/CameraModel.cpp:354-444 | so does a store update |
| CameraGridInvariant.StepKeepsInv | Qt/Back/Models/CameraModel.cpp:79-456 | every call keeps the grid invariant |
| CameraGridInvariant.RunKeepsInv | Qt/Back/Models/CameraModel.cpp:79-456 | every sequence of calls keeps it |
| CameraGridTheorems.EveryPointShownOnce | Qt/Back/Models/CameraModel.cpp:122-153 | in every reachable grid every point of every shown camera's frame is shown by exactly one row |
| CameraGridTheorems.OneRowOrOneGroup | Qt/Back/Models/CameraModel.cpp:163-270 | in every reachable grid a camera owns one full-frame row or exactly the n tiles of one group, with each index 0 to n-1 once, and shares the group with nobody |
| CameraGridTheorems.SlotsDistinct | Qt/Back/Models/CameraModel.cpp:184-211 | slot ids are distinct and below the counter, and auto-split marks are on live slots only |
| CameraGridTheorems.RemovedIdsStayGone | Qt/Back/Models/CameraModel.cpp:238-252 | a slot or group id that is gone does not come back until the grid is cleared |
| CameraGridTheorems.SplitIdsAreNew | Qt/Back/Models/CameraModel.cpp:183-208 | the tiles of a split carry new consecutive slot ids and a new group id |
| CameraGridTheorems.SwapTwice | Qt/Back/Models/CameraModel.cpp:79-101 | a swap leaves the slot column alone and is its own inverse |
| CameraGridTheorems.StoreUpdateAgrees | Qt/Back/Models/CameraModel.cpp:354-456 | after an update every row has the snapshot's online flag and type (unlisted cameras are offline), unsplit rows its title, and every listed camera has a row |
| CameraGridTheorems.StoreUpdateIdempotent | Qt/Back/Models/CameraModel.cpp:354-456 | the same snapshot again changes nothing at all, whatever the hash order and the auto-split table |
| CameraGridTheorems.AutoSplitAllSettles | Qt/Back/Models/CameraModel.cpp:448-455 | after the auto-split pass no row is left that auto-split would still act on |
| SplitMergeRoundTrip.SplitSwapsMergeRestores | Qt/Back/Models/CameraModel.cpp:183-269 | split, any swaps, merge at any tile: the multiset of row contents is the one from before if and only if the split row had a title |
| SplitMergeRoundTrip.SplitMergeKeepsOrder | Qt/Back/Models/CameraModel.cpp:236-265 | without swaps in between the order of the rows is restored too |
| SplitMergeRoundTrip.MarkerComesOff | Qt/Back/Models/CameraModel.cpp:254-260 | the marker a split appends is cut off again if and only if the title was not empty |
| SplitMergeRoundTrip.SplitRowMerges | Qt/Back/Models/CameraModel.cpp:220-231 | in a reachable grid every tile can be merged |
| SplitMergeRoundTrip.SwapKeepsContents | Qt/Back/Models/CameraModel.cpp:90-101 | a swap permutes row contents |
| CameraGridOperations.SwapRefusesIff | Qt/Back/Models/CameraModel.cpp:79-88 | a swap is refused, and then changes and announces nothing, if and only if a row is not in the list or both are the same |
| CameraGridOperations.SwapExchanges | Qt/Back/Models/CameraModel.cpp:90-101 | the two rows exchange title, camera, online flag, type, description, split data, crop rectangle and size; slot ids, sensor batches and all other rows stay |
| CameraGridOperations.SplitRefusesIff | Qt/Back/Models/CameraModel.cpp:163-182 | a split is refused if and only if the row is not in the list, not online or split already, or the count does not go with the direction: two to four columns, two or three rows, a grid of four |
| CameraGridOperations.SplitMakes | Qt/Back/Models/CameraModel.cpp:183-208 | tile k stands k rows behind the place of the split row, with the next slot ids, a group of its own, the title and its number, the camera, type, description and online flag of the row and nothing else of it; all other rows stay in order |
| CameraGridOperations.SplitCounts | Qt/Back/Models/CameraModel.cpp:183-211 | the counters move on by the ids given out; the row's mark goes, and an automatic split marks exactly the new slots |
| CameraGridOperations.DirectionsMean | Qt/Back/Models/CameraModel.cpp:122-153 | the rectangles of tile k of a manual split, by integer direction: 1 stacks the tiles, 2 makes quarters, everything else sets them side by side |
| CameraGridOperations.OtherwiseFullFrame | Qt/Back/Models/CameraModel.cpp:122-153 | counts and directions no split allows give the whole frame |
| CameraGridOperations.MergeRefusesIff | Qt/Back/Models/CameraModel.cpp:216-231 | with the grid invariant a merge is refused if and only if the row is not in the list or not split |
| CameraGridOperations.MergeMakes | Qt/Back/Models/CameraModel.cpp:236-265 | the merged row stands where the group's first row stood, unsplit, with the full frame, the marker cut off and all else of that row; the rows before it and the counters stay, and of those behind it the group's go |
| CameraGridOperations.StripIs | Qt/Back/Models/CameraModel.cpp:254-260 | of a title that ends in a bracket, what stands before its last " [" is left when that is something |
| CameraGridOperations.StripKeeps | Qt/Back/Models/CameraModel.cpp:254-260 | every other title stays as it is |
| CameraGridOperations.AutoSplitIff | Qt/Back/Models/CameraModel.cpp:272-308 | auto-split of a slot acts if and only if its row is there, online, unsplit and not marked and its camera's count is two to four; it is then an automatic split into that many columns |
| CameraGridOperations.SensorsReach | Qt/Back/Models/CameraModel.cpp:474-488 | a batch goes to exactly the rows of the camera and is announced, once, if and only if there is one |
| GridSignals.DistinctIdsAre | Qt/Back/Models/CameraModel.cpp:458-472 | an id is in the announced list if and only if it is not empty and a row shows it, and it is there once |
| GridSignals.EmissionIs | Qt/Back/Models/CameraModel.cpp:458-472 | an emission is every row's slot and camera in row order, and then the distinct ids |
| GridSignals.SwapAnnounces | Qt/Back/Models/CameraModel.cpp:103-111 | a swap announces the slots and then the two rows, with the eight roles of their content |
| GridSignals.OthersAnnounce | Qt/Back/Models/CameraModel.cpp:210-318 | a split and a clear announce the slots; a merge announces its row with every role and then the slots |
| GridSignals.StoreAnnounces | Qt/Back/Models/CameraModel.cpp:354-456 | an update announces row by row, in order, the camera's return and then the roles that differ; then come the slots, and behind them nothing but slots |
| GridSignals.ReturnAnnouncedIff | Qt/Back/Models/CameraModel.cpp:385-392 | an update announces a camera as back online if and only if some row shows it offline and the snapshot's last entry for it is online |
| GridSignals.ChangesAnnouncedOnce | Qt/Back/Models/CameraModel.cpp:379-414 | ahead of the slots a camera's return is announced once for each of its returning rows, and a row once with exactly the roles that differ, or not at all when none does |
| CameraModel.CameraModel.constructor | Qt/Back/Models/CameraModel.hpp:117-123 | a new model is the empty grid |
| CameraModel.CameraModel.SwapSlots | Qt/Back/Models/CameraModel.cpp:79-112 | the fields become those of the swap function, and the slots are announced before the two rows |
| CameraModel.CameraModel.SplitSlotAtIndex | Qt/Back/Models/CameraModel.cpp:163-214 | removal, tile insertion and marks amount to the split function, refusals included |
| CameraModel.CameraModel.InsertTiles | Qt/Back/Models/CameraModel.cpp:191-208 | the loop puts all tiles in order at the row's place |
| CameraModel.CameraModel.MergeGroupByIndex | Qt/Back/Models/CameraModel.cpp:216-270 | collecting the group, deleting backwards and editing in place amount to the merge function, refusals included |
| CameraModel.CameraModel.RemoveOthers | Qt/Back/Models/CameraModel.cpp:236-248 | the reverse loop deletes exactly the group's rows behind its first, and their marks |
| CameraModel.GroupIndices | Qt/Back/Models/CameraModel.cpp:224-228 | the collected indices are the group's rows in ascending order |
| CameraModel.CameraModel.AutoSplitForIndex | Qt/Back/Models/CameraModel.cpp:272-285 | auto-split as its function |
| CameraModel.CameraModel.ApplyAutoSplitForSlot | Qt/Back/Models/CameraModel.cpp:305-308 | the same for a slot id |
| CameraModel.CameraModel.RowForSlot | Qt/Back/Models/CameraModel.cpp:155-161 | the first row with the slot id, or -1 |
| CameraModel.CameraModel.SplitSlot | Qt/Back/Models/CameraModel.cpp:287-294 | a manual split; 1 is rows, 2 is grid, anything else columns |
| CameraModel.CameraModel.MergeSlots | Qt/Back/Models/CameraModel.cpp:296-298 | a manual merge |
| CameraModel.CameraModel.ClearAll | Qt/Back/Models/CameraModel.cpp:310-318 | rows, marks and counters start anew |
| CameraModel.CameraModel.OnStoreUpdated | Qt/Back/Models/CameraModel.cpp:354-456 | the four loops amount to the update function for the order the hash iterates in |
| CameraModel.CameraModel.RefreshRows | Qt/Back/Models/CameraModel.cpp:365-415 | the first loop refreshes all rows, announces the changes and finds the represented cameras |
| CameraModel.CameraModel.AppendMissing | Qt/Back/Models/CameraModel.cpp:417-444 | the second loop appends the missing cameras' rows |
| CameraModel.CollectSnapshot | Qt/Back/Models/CameraModel.cpp:355-361 | the hash of the snapshot |
| CameraModel.CameraModel.EmitSlotsUpdated | Qt/Back/Models/CameraModel.cpp:458-472 | the slot list, then the distinct non-empty ids in row order |
| CameraModel.CameraModel.UpdateSensorInfo | Qt/Back/Models/CameraModel.cpp:474-488 | sensors go to all rows of the camera |
| CameraModel.CameraModel.SetData | Qt/Back/Models/CameraModel.cpp:48-67 | an edit through a role |
| VideoManager.VideosFollowGrid | Core.cpp:370-375 | after every sequence of grid calls and logouts the manager's slot map is the grid's, and every camera shown has a worker of its own |
| VideoManager.SlotMapIsGrid | Qt/Back/Services/VideoStream.cpp:96-99 | with distinct slots the slot map answers every row's camera and knows no other slot |
| VideoManager.SignalsKeepWorkers | Qt/Back/Services/VideoStream.cpp:101-132 | no signal of the grid takes a worker away or gives a camera another one |
| VideoManager.WorkersAreThoseNamed | Qt/Back/Services/VideoStream.cpp:96-160 | after any signals exactly those cameras have a worker that had one before or were named by one of them: in a slot, in the list of ids, or as back online |
| VideoManager.SwapReattaches | Qt/Back/Models/CameraModel.cpp:109-111 | streams attached before a swap in a reachable grid are attached to their slots' new cameras after its signals |
| VideoManager.CardsFirstMisattaches | Qt/Back/Models/CameraModel.cpp:109-111 | with the signals in the other order the first stream would be right if and only if both rows showed the same camera |
| VideoManager.CardAttaches | Qt/Back/Services/VideoStream.cpp:199-230 | telling a stream its row's camera attaches it to that camera's worker |
| VideoManager.AttachesTo | Qt/Back/Services/VideoStream.cpp:207-230 | a stream is attached to the worker of the camera its slot shows; failing that to that of its own camera; failing that to none |
| VideoManager.VideoManager.RegisterSlots | Qt/Back/Services/VideoStream.cpp:96-115 | the slot map is replaced, workers are added for new cameras |
| VideoManager.VideoManager.RegisterCameraIds | Qt/Back/Services/VideoStream.cpp:117-132 | workers are added for new ids |
| VideoManager.VideoManager.RestartWorker | Qt/Back/Services/VideoStream.cpp:134-160 | a restart keeps the worker or makes one |
| VideoManager.VideoManager.ClearAll | Qt/Back/Services/VideoStream.cpp:87-94 | no worker and no slot is left |
| UdpReassembly.UdpSession.SetExpectedMeta | Src/Network/UdpSession.hpp:45-45 | the metadata delivered with the next image |
| UdpReassembly.UdpSession.HandlePacket | Src/Network/UdpSession.hpp:105-171 | short, foreign, handshake and undecryptable packets change nothing |
| UdpReassembly.UdpSession.HandleImageFragment | Src/Network/UdpSession.hpp:173-219 | a fragment opens, extends, repeats or completes a frame, with the loop that builds the image |
| UdpReassembly.UdpSession.CheckMissingFragments | Src/Network/UdpSession.hpp:221-252 | the scan, the request and the new wait |
| UdpReassembly.UdpSession.RunTimerHandler | Src/Network/UdpSession.hpp:184-192 | an expired wait acts only for the current, non-empty frame |
| UdpReassembly.UdpSession.TimerExpires | Src/Network/UdpSession.hpp:183-192 | the armed wait becomes a queued handler |
| UdpReassembly.MissingIsExact | Src/Network/UdpSession.hpp:221-227 | the list holds exactly the sequences not held, ascending, without repeats |
| UdpReassembly.ScanEndsIff | Src/Network/UdpSession.hpp:223-227 | the eight-bit counter passes the maximum if and only if the maximum is at most 254 |
| UdpTimer.HandlerAsksIff | Src/Network/UdpSession.hpp:184-252 | a handler asks, for exactly what is missing of the current frame, and arms a new wait, if and only if its frame is the current one, some of it is held, some is missing and there is a control callback; else it goes without a trace |
| UdpTimer.ExpiryQueues | Src/Network/UdpSession.hpp:183-192 | an expiry queues the handler of the armed wait and does nothing else |
| UdpTimer.FragmentHeld | Src/Network/UdpSession.hpp:175-199 | a new fragment that does not complete its frame is held beside the others of its frame number and nothing is said; when the number is new, the others are dropped, the maximum taken over and a wait armed |
| UdpTimer.FragmentCompletes | Src/Network/UdpSession.hpp:199-218 | a fragment that completes the count cancels the wait, drops what is held and keeps the frame number; the image goes out with the metadata set last, then the acknowledgement, each if its callback is there |
| UdpTimer.SilentAfterDelivery | Src/Network/UdpSession.hpp:187-247 | in every run between a delivery and the next arrival nothing is requested, whatever handlers are still queued |
| UdpTimer.OnlyPermitted | Src/Network/UdpSession.hpp:210-229 | in every run no callback that is missing is called |
| UdpTheorems.ReassemblySafe | Src/Network/UdpSession.hpp:173-219 | for a sender with one chunking per frame number every image delivered is all chunks of one sent frame in order, over every run of arrivals, expiries and handlers |
| UdpTheorems.InitialHolds | Src/Network/UdpSession.hpp:266-269 | a new session is a state the safety theorem starts from |
| UdpTheorems.EveryDeliveryAcked | Src/Network/UdpSession.hpp:210-216 | with both callbacks set deliveries and acknowledgements come in pairs, for any sender at all |
| UdpTheorems.DeliversPerFill | Src/Network/UdpSession.hpp:195-218 | while one frame number arrives alone, it is delivered as often as the arrivals fill it |
| UdpTheorems.DeliveredOnceIff | Src/Network/UdpSession.hpp:195-218 | it is delivered exactly once if and only if all its chunks arrive and those after completion do not cover it again |
| UdpTheorems.DuplicateDeliversTwice | Src/Network/UdpSession.hpp:195-218 | the same fragment twice delivers a one-fragment image twice |
| UdpProgress.WatchedWhileOpen | Src/Network/UdpSession.hpp:175-193 | in every run, while a frame opened by the new-frame branch is incomplete a wait for it is armed or its handler queued |
| UdpProgress.NoNewFrameNoRequest | Src/Network/UdpSession.hpp:267-267 | fragments that do not change the frame number from a state without waits never lead to a request |
| UdpProgress.FirstFragmentWatchedIff | Src/Network/UdpSession.hpp:175-193 | after an incomplete first fragment the frame is watched if and only if its number is not 255 |
| UdpProgress.FirstFrameWatchedIff | Src/Network/UdpSession.hpp:267-267 | the same until its first delivery, in every run in which only that frame arrives |
| UdpProgress.EndlessScanIsReached | Src/Network/UdpSession.hpp:221-227 | one fragment of a frame of 256 and an expired wait reach a scan whose counter never passes the maximum |
| UdpProgress.RequestGoesOut | Src/Network/UdpSession.hpp:184-251 | for at most 255 fragments the timer's part of a round can happen, and asks for exactly what is missing |
| UdpProgress.MissingOnlyShrinks | Src/Network/UdpSession.hpp:195-251 | while only the open frame arrives, with timer steps anywhere in between, the missing set loses exactly what arrives until the frame is delivered |
| UdpProgress.RoundShrinks | Src/Network/UdpSession.hpp:184-251 | any such stretch in which a missing fragment arrives completes the frame or strictly shrinks the missing set |
| UdpProgress.RoundsComplete | Src/Network/UdpSession.hpp:184-251 | as many such stretches as fragments are missing deliver the frame |
| ThreadPool.ThreadPool.Submit | Src/Thread/ThreadPool.cpp:3-9 | the critical section is the push step, with no stop check |
| ThreadPool.ThreadPool.SubmitChecked | Src/Thread/ThreadPool.hpp:67-74 | the critical section is the push step, refused on a stopped pool |
| ThreadPool.ThreadPool.WorkLoopSection | Src/Thread/ThreadPool.cpp:14-25 | the critical section is the worker's step: wait, leave or take the front |
| ThreadPool.ThreadPool.RequestStop | Src/Thread/ThreadPool.hpp:27-30 | the critical section is the stop step |
| ThreadPool.ReachableInv | Src/Thread/ThreadPool.cpp:3-28 | mutex, queue, wakeup and exit invariants hold in every reachable state of any number of workers |
| ThreadPoolTheorems.SubmissionQueues | Src/Thread/ThreadPool.hpp:67-74 | a submission puts its task at the end of the queue, with one more notification due, unless it is of the templated form and the pool is stopped; then it changes nothing |
| ThreadPoolTheorems.AcceptedInOrderOnce | Src/Thread/ThreadPool.cpp:3-26 | in every run the accepted tasks, read off the steps alone (plain submissions, and templated ones ahead of the stop), are in order those taken and then those queued |
| ThreadPoolTheorems.AcceptedAllRan | Src/Thread/ThreadPool.hpp:26-35 | in every run without an unchecked push into the stopped pool everything accepted has run, as often as it was accepted, once all workers have exited |
| ThreadPoolTheorems.MutualExclusion | Src/Thread/ThreadPool.cpp:15-15 | at most one worker holds the mutex |
| ThreadPoolTheorems.NoLostWakeup | Src/Thread/ThreadPool.cpp:11-20 | no reachable state has work queued, all live workers asleep and no notification on its way |
| ThreadPoolTheorems.TakenInOrderOnce | Src/Thread/ThreadPool.cpp:20-26 | what was taken is a prefix of what was pushed, the queue is the rest, and each was executed or is executing as often as it was taken |
| ThreadPoolTheorems.DrainedOnExit | Src/Thread/ThreadPool.hpp:26-35 | when all workers have exited everything pushed before the stop was taken and has finished; the queue is empty if and only if nothing was pushed after the last exit |
| ThreadPoolTheorems.DrainedWithoutLatePush | Src/Thread/ThreadPool.hpp:67-74 | in every run without an unchecked push into the stopped pool the queue is empty once all workers have exited |
| ThreadPoolTheorems.DrainsIff | Src/Thread/ThreadPool.hpp:69-70 | that promise holds for all runs if and only if such pushes are kept out |
| ThreadPoolTheorems.LateSubmissionIsLost | Src/Thread/ThreadPool.cpp:3-9 | a run after which all workers have exited and a plain submission is left in the queue |
| ThreadPoolTheorems.NeverStuck | Src/Thread/ThreadPool.cpp:11-28 | with work queued and a worker left, or a stop under way, some step already under way can be taken |
| ThreadPoolTheorems.ShutdownTerminates | Src/Thread/ThreadPool.hpp:26-35 | a stopped pool nobody submits to takes a bounded number of steps, spurious wakeups included |
| ThreadPoolTheorems.ShutdownCompletes | Src/Thread/ThreadPool.hpp:31-34 | when it can take none, all workers are joined and everything pushed before the stop has finished |
| CameraIds.StreamNumberIff | Src/Domain/Camera.cpp:23-39 | the extractor answers n if and only if the URL is pre, ip, mid, slash, n, slash, rest with the first occurrence of ip behind pre and no slash in mid and n |
| CameraIds.StoresAgree | Src/Domain/Device.cpp:48-69 | for a non-empty ip both copies give the same id: ip and that number, or ip and "/0" when the URL has no such reading |
| CameraStore.CameraStore.UpdateFromJson | Src/Domain/Camera.cpp:4-62 | the loop fills the list and the table; every listed id has a table row |
| CameraStore.CameraStore.Snapshot | Src/Domain/Camera.cpp:64-74 | every listed camera is joined with its table row |
| CameraStore.PacketKeepsTable | Src/Domain/Camera.cpp:44-52 | a packet loses no camera and no sensor or detection data; a listed camera gets the URL listed last |
| CameraStore.ListedAre | Src/Domain/Camera.cpp:13-53 | the listed cameras are the packet's items with an id, in its order, each with the item's ip and type as title, its type, its online flag, its id and no sensors |
| CameraStore.CameraStore.UpdateDeviceInfo | Src/Domain/Camera.cpp:76-80 | sensors go into the camera's row, made when missing |
| CameraStore.CameraStore.UpdateAiInfo | Src/Domain/Camera.cpp:82-86 | detections go into the camera's row, made when missing |
| CameraStore.CameraStore.GetCameraStruct | Src/Domain/Camera.cpp:88-95 | the row, or an empty one |
| CameraStore.CameraStore.Clear | Src/Domain/Camera.cpp:97-101 | nothing is left |
| DeviceStore.DeviceStore.UpdateFromCameraJson | Src/Domain/Device.cpp:16-97 | the two loops amount to the update function |
| DeviceStore.DeviceStore.UpdateFromAvailableJson | Src/Domain/Device.cpp:100-163 | the loop amounts to the update function |
| DeviceStore.DeviceStore.GetHistory | Src/Domain/Device.cpp:199-209 | the history of the ip's device, or none |
| DeviceStore.DeviceStore.Clear | Src/Domain/Device.cpp:211-214 | nothing is left |
| DeviceStore.PushBounded | Src/Domain/Device.cpp:165-173 | the oldest entries go when there are more than 60 |
| DeviceTheorems.TableRefinesLog | Src/Domain/Device.cpp:16-173 | after any packets the device under an ip is the one the unbounded log of CAMERA and AVAILABLE packets calls for |
| DeviceTheorems.InterleavingsAgree | Core.cpp:184-204 | two interleavings with the same order within each kind leave the same device under every ip |
| DeviceTheorems.DeviceOfLog | Src/Domain/Device.cpp:39-173 | a device exists if and only if some packet named it; kind, id and motor (for SUB_PI alone) are those of its last listing, or the defaults; it is online exactly when the latest CAMERA packet says so; its history is its last 60 reports, field by field, and its values the last report's |
| DeviceTheorems.ListedShows | Src/Domain/Device.cpp:34-78 | whatever table there was, a device a CAMERA packet lists has the id, type, online flag and motor its item gives it, no ir and no heater, and keeps its samples |
| DeviceTheorems.KnownStaysKnown | Src/Domain/Device.cpp:81-90 | no packet loses a known ip |
| DeviceTheorems.CameraKeepsDistinctIff | Src/Domain/Device.cpp:26-92 | a CAMERA packet leaves one row per ip if and only if it lists no ip twice |
| DeviceTheorems.AvailableKeepsDistinct | Src/Domain/Device.cpp:125-137 | an AVAILABLE packet keeps one row per ip |
| DeviceTheorems.CameraOrdersRows | Src/Domain/Device.cpp:26-97 | a CAMERA packet puts its devices first, in its order, and behind them the others, in theirs |
| DeviceTheorems.AvailableOrdersRows | Src/Domain/Device.cpp:125-137 | an AVAILABLE packet leaves the rows in place and puts unknown ips behind them, in its order |
| DeviceModel.DeviceModel.OnStoreUpdated | Qt/Back/Models/DeviceModel.cpp:61-123 | the loop and the rebuilt index amount to the update function |
| DeviceModel.IndexIsInverseIff | Qt/Back/Models/DeviceModel.cpp:118-122 | the rebuilt index is the inverse of the rows if and only if no ip has two rows |
| DeviceModel.UpdateKeepsInverseIff | Qt/Back/Models/DeviceModel.cpp:61-123 | an update keeps it so if and only if no unknown ip is listed twice |
| DeviceModel.UpdateShowsSnapshot | Qt/Back/Models/DeviceModel.cpp:61-116 | every device of a snapshot is in its row afterwards and all others are as before |
| DeviceModel.ModelFollowsLog | Core.cpp:184-204 | given the store's table after every packet of a log whose CAMERA packets list no ip twice, the model's index is the inverse of its rows and it shows under every ip the store's device or none |
| DeviceModel.ModelFollowsStore | Core.cpp:201-204 | one update with a table of distinct ips shows all its devices |
| Bytes.Le32RoundTrip | Src/Network/TcpSession.hpp:66-67 | the little-endian length reads back |
| Bytes.LowestFirst | Src/Network/TcpSession.hpp:66-67 | the four octets count ones, 256s, 65536s and 16777216s, in this order |
| Framing.FrameLayout | Src/Network/TcpSession.hpp:63-70 | a frame is the type octet, the payload's length with its lowest octet first, and the payload |
| Framing.FramingRoundTrip | Src/Network/TcpSession.hpp:53-82 | reading what was written gives the same messages in the same order with nothing left over |
| Framing.FramingRoundTripOnlyIf | Src/Network/TcpSession.hpp:66-70 | and only if every payload fits the 32-bit length |
| Framing.FramesInConcat | Src/Network/TcpSession.hpp:91-164 | a stream read in two stretches gives what it gives in one |
| Framing.PlainRoundTrip | Src/Network/TcpSession.hpp:53-164 | without TLS the handler gets the messages sent if and only if every payload fits |
| Framing.TlsRoundTrip | Src/Network/TcpSession.hpp:53-164 | over an ideal in-order TLS stream it gets the messages sent but those typed as handshake |
| Framing.NothingEmptyHanded | Src/Network/TcpSession.hpp:105-157 | over TLS no handshake message is handed on, and an empty one only for an empty frame |
| Framing.TcpReader.ReadHeader | Src/Network/TcpSession.hpp:91-121 | a header starts a body or, with length zero, is a whole frame |
| Framing.TcpReader.ReadBody | Src/Network/TcpSession.hpp:123-164 | a body completes its frame; handshake frames and empty decryptions are not handed on |
| Framing.TcpReader.Receive | Src/Network/TcpSession.hpp:91-164 | after bytes that came in any pieces, exactly the frames complete in them were handed on and the rest is kept |
| Gating.MessageProcessor.ProcessMessage | Src/Network/MessageProcessor.cpp:11-120 | a message invokes its type's callback, with its payload, if that is set and the payload not empty, and nothing else |
| Gating.DispatchIff | Src/Network/MessageProcessor.cpp:15-120 | a set callback is invoked, with the payload, if and only if the payload is not empty and the type is one the protocol gives it (nine pairs of type and callback); nothing else is invoked |
| Gating.DispatchTellsApart | Src/Network/MessageProcessor.cpp:15-46 | what is invoked determines the message, up to DEVICE and AVAILABLE |
| Gating.TcpSession.HeaderRead | Src/Network/TcpSession.hpp:98-116 | the header handler: phase and handler call |
| Gating.TcpSession.BodyRead | Src/Network/TcpSession.hpp:130-159 | the body handler: handshake flags and handler call |
| Gating.TcpSession.ReadFailed | Src/Network/TcpSession.hpp:160-162 | a failed read is the last one and disconnects |
| Gating.TcpSession.HandleDisconnect | Src/Network/TcpSession.hpp:166-174 | the first error closes the socket and calls the handler, later ones do nothing |
| Gating.NetworkService.Handle | Src/Network/NetworkService.cpp:73-98 | each session handler posts one strand job |
| Gating.NetworkService.RunFirst | Src/Network/NetworkService.cpp:73-161 | the strand's next job: the flag, the dispatch, the gated send or the teardown |
| GatingTheorems.ConnectionGating | Src/Network/NetworkService.cpp:77-98 | over every run from a lowered flag: connected handler and connected callback at most once and only after the handshake; no callback before it; no application frame before the connected callback; disconnect handler at most once |
| GatingProgress.HandlersCalledIff | Src/Network/TcpSession.hpp:138-174 | in every run the connected handler is called if and only if some handshake frame leaves the TLS engine done, and the disconnect handler if and only if some read or write fails |
| GatingProgress.KeepsReading | Src/Network/TcpSession.hpp:91-164 | in every run a read that can succeed is under way until the socket is closed or a read has failed |
| GatingProgress.BodyReaches | Src/Network/NetworkService.cpp:73-81 | the message of a body that arrives invokes its callback once the jobs queued before it have run, unless there is no processor by then |
| GatingProgress.MessageReaches | Src/Network/NetworkService.cpp:77-80 | the same for a message anywhere in the queue |
| GatingProgress.SendReachesIff | Src/Network/NetworkService.cpp:146-161 | an application's frame goes to the session, when the jobs queued before it have run, if and only if the session is still there and the connected flag is up by then |
| GatingProgress.ImageReaches | Src/Network/NetworkService.cpp:22-53 | image metadata goes to its callback and is answered with the message that carries the port |
| Reconnect.GatingIff | Src/Network/NetworkService.cpp:150-152 | a session keeps this in all its runs if and only if the flag it starts with is down |
| Reconnect.FlagLeftUpIff | Src/Network/NetworkService.cpp:82-98 | a session that has stopped leaves the flag up if and only if its handshake ended after an error was handled and disconnect was not called after that |
| Reconnect.NextSessionGatedIff | Src/Network/NetworkService.cpp:14-16 | two sessions joined by the disconnect of connect: the second starts with the flag up, and loses the gating, if and only if the first one's handshake still ends late after that call |
| Reconnect.NextSessionCanStartUp | Src/Network/NetworkService.cpp:108-122 | such a first session, from a lowered flag to its end |
| CallbackOrder.CallbackOrderIff | Src/Network/TcpSession.hpp:131-157 | every message callback follows the connected handler, and the connected callback, in all runs whose handshake ends in a frame of one kind, if and only if that kind is the handshake's own |
| Debouncer.NetworkBridge.SendDevice | Qt/Back/Services/NetworkBridge.cpp:185-233 | an action goes out at once, what it sets is pending, the timer starts when something was set |
| Debouncer.NetworkBridge.ProcessPendingStates | Qt/Back/Services/NetworkBridge.cpp:235-250 | the loop over the pending map amounts to the flush function |
| Debouncer.PendingMirrorsLog | Qt/Back/Services/NetworkBridge.cpp:208-227 | in every run what is pending is, per device, the last motor mode and the last non-empty ir and heater values since the previous timeout |
| Debouncer.TimerRunsIffPending | Qt/Back/Services/NetworkBridge.cpp:229-232 | in every run the timer is running if and only if some field is pending |
| Debouncer.FlushCoalesces | Qt/Back/Services/NetworkBridge.cpp:235-250 | a timeout sends exactly one message, with those values, to each device that was asked something, nothing else, and leaves nothing pending |
| Debouncer.LastSettingSent | Qt/Back/Services/NetworkBridge.cpp:185-250 | no setting is lost or overtaken by an older one: whenever the timer is not running, what was sent last of a device's mode, ir or heater is what was issued last of it |
| Nv12.RowsAt | Qt/Back/Services/VideoStream.cpp:30-33 | byte j of row i of the output is byte j of row i of the source, padding left out |
| Nv12.LumaIsRows | Qt/Back/Services/VideoStream.cpp:27-34 | the luma plane gets its rows by either path |
| Nv12.ChromaIsRowsIff | Qt/Back/Services/VideoStream.cpp:36-44 | the chroma plane in one piece equals the row loop if and only if the height is even or the width below two |
| Nv12.CopyPlane | Qt/Back/Services/VideoStream.cpp:27-44 | one plane by the path its stride calls for; bytes behind it keep their value |
| Nv12.OnFrameReady | Qt/Back/Services/VideoStream.cpp:9-56 | a frame is made if and only if both planes are there, the size is positive and the frame can be mapped; its planes then hold the source's rows |

## Left out

- Integer widths of counters: slot, group and worker counters are unbounded; only the eight-bit sequence counter and the 32-bit frame length are modelled with their width.
- Floating point: crop rectangles are exact reals; the binary rounding of thirds is not modelled.
- Hash order: a `QHash` or `QMap` is visited in an arbitrary order that the caller learns; the sorted order of `QMap` is not used.
- SplitMergeRoundTrip.SplitSwapsMergeRestores: contents leave out the slot id (new by design), the split direction (a merge leaves columns, not none) and the sensor batch, which a swap and a split do not carry along.
- Sensor batches after swaps, and the address-prefix matching of META, AI and IMAGE in `Core.cpp`: they do not hold as intended and nothing is built on them.
- Row notifications of the view (`beginInsertRows` and its kind), card sizes, hover and drag state, and the creation of cards in QML: only `slotsUpdated`, `cameraIdsUpdated`, `dataChanged` and `cameraOnline` are modelled.
- UDP sender: each frame number stands for one image with one chunking; reuse of a number for another image is outside `ReassemblySafe`.
- UdpProgress.RequestGoesOut: a frame of 256 fragments is left out because its scan does not return.
- JSON: packets come as decoded records, the missing-sequence request goes out as a list; elements that are not objects are dropped before the model begins.
- The clock: the timestamp of an AVAILABLE packet is part of the packet.
- Threads: the pool is a transition system whose steps are the critical sections and notifications; work items are numbers and are assumed to return. The memory model, futures and exceptions of work items are not modelled.
- Framing.TlsRoundTrip: TLS is ideal, each frame is written in one piece, and sealed payloads are assumed to fit the length field; the source starts writes without a queue.
- Gating: one TLS session from its start; the connect attempt, session use without TLS and the handshake's own frames are left out, and a write may fail at any time.
- Worker streams: starting, stopping, URLs and frame-rate limits of `VideoWorker`, and the timer that shows frames.
- Alarm, AI image, server status, user, settings and authentication controllers: bounded lists and setters that would only add easy members.
- The table of packet types in the repository's documents lists CAMERA as 0x04; the code uses 0x07 and the model follows it.
