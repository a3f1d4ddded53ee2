# MEGA for Android: a verified model of ten core pieces

This project models, in Dafny, ten pieces of the MEGA Android client and proves what they
promise:

- **NameCollisionViewModel** (`name_collision.dfy`, with the shared records in
  `collision_data.dfy`). This is the screen that resolves name collisions one at a time. It keeps:
  - a current collision;
  - a pending list, with files before folders;
  - a counter per kind.

  A choice resolves the current collision. With "apply on next" it also resolves all pending
  files, or everything. In a folder-upload context the choices are only logged and published.
- **MediaPlayerServiceViewModel** (`media_player.dfy`). The playlist of the audio and video
  players:
  - it is rebuilt along the player's shuffle order around the playing item;
  - each item is tagged previous, playing or next, with headers and a scroll target;
  - or the list is filtered by a search query;
  - items can be removed, selected and swapped;
  - it has the retry counter for player errors.
- **CopyNodeUseCase** and **RemoveNodeUseCase** (`copy_node.dfy`, `remove_node.dfy`). These
  copy and remove cloud nodes, one at a time or in batches:
  - a batch counts soft failures;
  - it reports the first quota or foreign-node error instead.
- **DefaultSaveSyncRecordsToDB** (`sync_records.dfy`). Camera-upload records are saved to the
  database. Along the way:
  - an older record with the same fingerprint is replaced;
  - a record whose local file is gone is dropped;
  - a file name is found that is free both in the cloud folder and in the database, and a
    temporary path is assigned.
- **UploadUtil.getSDCardRoot** (`upload_util.dfy`): a path cut just before its third '/'.
- **DefaultGetOfflineFile** (`offline_file.dfy`): the local path of an offline node.
- **FileBrowserViewModel** (`file_browser.dfy`):
  - the cloud-drive folder being browsed;
  - the stack of saved list positions;
  - the media-discovery shortcut.
- **ScanCodeFragment** (`scan_code.dfy`): the parsing of a scanned contact link, and the
  bounded restarts of a failing camera preview.
- **EnvironmentRepositoryImpl** (`environment.dfy`): the device name and language reported to
  the server.

`common.dfy` holds the shared string helpers:
- `Option`;
- decimal rendering of integers;
- substring search and Kotlin's literal `split`;
- `joinToString`;
- ASCII case folding.

Objects whose fields the source updates in place are classes, and their methods state the
whole new state. These are the collision screen, the media-player view model, the file
browser, the scanner screen and the sync-record table. The one exception is the camera-upload
record itself: the source sets its name and path in place, while the model returns an updated
copy (see "Left out"). Pure decisions and the loops of the
use cases are functions. Each such function has a method that runs the source's loop and is
proved against it, e.g. `CopyNode.CopyCollisions` against `CopyNode.Run`.

Lookups, the SDK's responses, the database, the file system and the clock are parameters:
- lookups by handle;
- the SDK's response codes;
- the file system's existence checks;
- `nanoTime`.

Asynchronous callbacks (RxJava, coroutines, LiveData) are taken to run to completion, in order.

## Model

| member | source | states |
|---|---|---|
| CollisionData.ChoiceFor | app/src/main/java/mega/privacy/android/app/namecollision/NameCollisionViewModel.kt:343-345 | the choice is RENAME exactly when renaming, and never CANCEL |
| CollisionData.WithChoice | app/src/main/java/mega/privacy/android/app/namecollision/NameCollisionViewModel.kt:255-257 | the collision and its rename name are kept; only the choice is set |
| NameCollision.CountsAppend | app/src/main/java/mega/privacy/android/app/namecollision/NameCollisionViewModel.kt:74-75 | file and folder counts add up over a concatenation |
| NameCollision.CountsPartition | app/src/main/java/mega/privacy/android/app/namecollision/NameCollisionViewModel.kt:74-75 | every pending collision is counted as exactly one of file or folder |
| NameCollision.HeadCounts | app/src/main/java/mega/privacy/android/app/namecollision/NameCollisionViewModel.kt:276-281 | taking the head lowers the count of its kind by one and leaves the other |
| NameCollision.FilesPrefixLength | app/src/main/java/mega/privacy/android/app/namecollision/NameCollisionViewModel.kt:219-222 | the file sweep stops at the item that holds the last counted file; the prefix holds exactly `files` files |
| NameCollision.SweepLeavesFolders | app/src/main/java/mega/privacy/android/app/namecollision/NameCollisionViewModel.kt:219-222 | sweeping as many files as are pending leaves only folders |
| NameCollision.SweepTakesTheFiles | app/src/main/java/mega/privacy/android/app/namecollision/NameCollisionViewModel.kt:219-222 | on a files-first list the sweep takes exactly the files and no folder |
| NameCollision.AllFolders | app/src/main/java/mega/privacy/android/app/namecollision/NameCollisionViewModel.kt:219-222 | a files-first list that starts with a folder holds no file |
| NameCollision.TagAll | app/src/main/java/mega/privacy/android/app/namecollision/NameCollisionViewModel.kt:233-237 | each collision of the list, in order, with its choice set and all else kept |
| NameCollision.TagAllConcat | app/src/main/java/mega/privacy/android/app/namecollision/NameCollisionViewModel.kt:435-441 | tagging distributes over concatenation |
| NameCollision.NextAdvances | app/src/main/java/mega/privacy/android/app/namecollision/NameCollisionViewModel.kt:272-281 | with something pending, the head becomes current and leaves the list; the counter of its kind drops by one |
| NameCollision.NextOnEmptyQueue | app/src/main/java/mega/privacy/android/app/namecollision/NameCollisionViewModel.kt:253-270 | with nothing pending, outside a folder upload the current collision is cleared; inside one it is logged and the log is published |
| NameCollision.NextKeepsCountersMatch | app/src/main/java/mega/privacy/android/app/namecollision/NameCollisionViewModel.kt:253-282 | moving on keeps both counters equal to what is pending |
| NameCollision.Next | app/src/main/java/mega/privacy/android/app/namecollision/NameCollisionViewModel.kt:253-282 | at most the head leaves the pending list; the log only grows, and outside a folder upload neither log nor publication changes |
| NameCollision.NextStep | app/src/main/java/mega/privacy/android/app/namecollision/NameCollisionViewModel.kt:253-282 | one step with files pending: head becomes current, its counter drops, the current one is logged in a folder upload |
| NameCollision.SweepStep | app/src/main/java/mega/privacy/android/app/namecollision/NameCollisionViewModel.kt:219-222 | one sweep step collects the head; the rest is the sweep of the next queue |
| NameCollision.Sweep | app/src/main/java/mega/privacy/android/app/namecollision/NameCollisionViewModel.kt:214-225 | the sweep ends with the file counter spent and a collision still current, having collected no more than was pending |
| NameCollision.SweepTakes | app/src/main/java/mega/privacy/android/app/namecollision/NameCollisionViewModel.kt:214-225 | the sweep collects the pending prefix up to the last counted file; the rest stay pending; the last collected is current |
| NameCollision.SweepCounters | app/src/main/java/mega/privacy/android/app/namecollision/NameCollisionViewModel.kt:214-225 | the sweep brings the file counter to 0 and lowers the folder counter by the folders it passed |
| NameCollision.SweepLogs | app/src/main/java/mega/privacy/android/app/namecollision/NameCollisionViewModel.kt:214-225 | in a folder upload the sweep logs every collision it moved past with the choice; it never publishes |
| NameCollision.SweepKeepsCountersMatch | app/src/main/java/mega/privacy/android/app/namecollision/NameCollisionViewModel.kt:214-225 | from matching counters the sweep leaves no file pending and keeps the counters matching |
| NameCollision.CollisionType | app/src/main/java/mega/privacy/android/app/namecollision/NameCollisionViewModel.kt:200-205 | copies and chat imports are COPY, movements are MOVE, uploads and no collision are UPLOAD (each an iff) |
| NameCollision.ReachOf | app/src/main/java/mega/privacy/android/app/namecollision/NameCollisionViewModel.kt:302-309 | the three-way split: files only, everything, or the single current one, each as an iff |
| NameCollision.TransferMessage | app/src/main/java/mega/privacy/android/app/namecollision/NameCollisionViewModel.kt:338-376 | uploads report a quantity, moves and copies their own text |
| NameCollision.ProceedSweepsFiles | app/src/main/java/mega/privacy/android/app/namecollision/NameCollisionViewModel.kt:338-376 | "apply on next" over both kinds sweeps the pending prefix up to the last counted file: the rest stay, the file counter is 0, the folder counter drops by the folders passed, and the last swept one is current |
| NameCollision.ProceedPostsResult | app/src/main/java/mega/privacy/android/app/namecollision/NameCollisionViewModel.kt:338-376 | outside a folder upload a success posts the upload count or the move/copy text, finishing exactly when nothing is pending (before the step, for a single one); a failed upload posts nothing, a failed move or copy posts its error |
| NameCollision.FolderUploadLogsSweptTwice | app/src/main/java/mega/privacy/android/app/namecollision/NameCollisionViewModel.kt:214-225 | in a folder upload the file sweep logs the swept collisions and the upload logs the whole batch again; nothing is published while folders remain |
| NameCollision.ProceedTakesEverything | app/src/main/java/mega/privacy/android/app/namecollision/NameCollisionViewModel.kt:338-376 | "apply on next" over one kind leaves nothing pending and marks all processed, whatever the use case answers |
| NameCollision.ProceedKeepsCountersMatch | app/src/main/java/mega/privacy/android/app/namecollision/NameCollisionViewModel.kt:338-376 | except when everything is taken, a proceed keeps the counters equal to what is pending |
| NameCollision.CancelOutcomes | app/src/main/java/mega/privacy/android/app/namecollision/NameCollisionViewModel.kt:302-309 | a cancel posts nothing; over both kinds it sweeps the files as a proceed does; over everything in a folder upload it logs all remaining as CANCEL and publishes the log; counters keep matching |
| NameCollision.NameCollisionViewModel.constructor | app/src/main/java/mega/privacy/android/app/namecollision/NameCollisionViewModel.kt:70-76 | empty queue, counters 0, nothing resolved or published |
| NameCollision.NameCollisionViewModel.SetData | app/src/main/java/mega/privacy/android/app/namecollision/NameCollisionViewModel.kt:136-158 | the first reordered collision becomes current, the counters are taken over, the rest replace the pending list only when non-empty; on failure the current one is cleared |
| NameCollision.NameCollisionViewModel.ContinueWithNext | app/src/main/java/mega/privacy/android/app/namecollision/NameCollisionViewModel.kt:253-282 | the queue takes exactly the step `Next` |
| NameCollision.NameCollisionViewModel.ProceedWithAllFiles | app/src/main/java/mega/privacy/android/app/namecollision/NameCollisionViewModel.kt:214-225 | returns the current collision followed by the sweep's collected items and leaves the queue as the sweep does |
| NameCollision.NameCollisionViewModel.GetAllPendingCollisions | app/src/main/java/mega/privacy/android/app/namecollision/NameCollisionViewModel.kt:382-392 | current then all pending, in order; the new screen state is `TakeAll`: pending emptied, all processed, counters untouched |
| NameCollision.NameCollisionViewModel.CancelAll | app/src/main/java/mega/privacy/android/app/namecollision/NameCollisionViewModel.kt:231-245 | the new screen state is `CancelAllEffect`: in a folder upload all remaining are logged as CANCEL and published; otherwise the current one is cleared |
| NameCollision.NameCollisionViewModel.Cancel | app/src/main/java/mega/privacy/android/app/namecollision/NameCollisionViewModel.kt:302-309 | the whole new screen state is `CancelEffect`: the file sweep, cancel all, or one step, as `ReachOf` decides (see `CancelOutcomes`); rename names untouched |
| NameCollision.NameCollisionViewModel.SetActionResult | app/src/main/java/mega/privacy/android/app/namecollision/NameCollisionViewModel.kt:465-475 | the result says to finish exactly when nothing is pending |
| NameCollision.NameCollisionViewModel.Upload | app/src/main/java/mega/privacy/android/app/namecollision/NameCollisionViewModel.kt:429-458 | the new screen state is `UploadEffect`: in a folder upload the list is logged with the choice and published once nothing is pending; otherwise a started upload reports the list's size |
| NameCollision.NameCollisionViewModel.SingleUpload | app/src/main/java/mega/privacy/android/app/namecollision/NameCollisionViewModel.kt:400-420 | the whole new screen state is `SingleUploadEffect`: a folder upload only moves on; otherwise a started upload sets the result and moves on, a failed one changes nothing |
| NameCollision.NameCollisionViewModel.SingleTransfer | app/src/main/java/mega/privacy/android/app/namecollision/NameCollisionViewModel.kt:482-500 | the whole new screen state is `SingleTransferEffect`: success sets the result and moves on; an error is posted and the queue stays |
| NameCollision.NameCollisionViewModel.Transfer | app/src/main/java/mega/privacy/android/app/namecollision/NameCollisionViewModel.kt:508-519 | the new screen state is `TransferEffect`: success sets the result; an error is posted; the queue is untouched |
| NameCollision.NameCollisionViewModel.ProceedWithAction | app/src/main/java/mega/privacy/android/app/namecollision/NameCollisionViewModel.kt:338-376 | the whole new screen state is `ProceedEffect` (see `ProceedSweepsFiles`, `ProceedPostsResult`, `ProceedTakesEverything`): the reach picks the file sweep, all taken, or one step; the type picks upload, move or copy |
| NameCollision.NameCollisionViewModel.Rename | app/src/main/java/mega/privacy/android/app/namecollision/NameCollisionViewModel.kt:317-328 | the rename name is remembered; without the names update nothing else changes; with it the new screen state is `ProceedEffect` for a rename |
| MediaPlayer.PermutationDistinct | app/src/main/java/mega/privacy/android/app/mediaplayer/service/MediaPlayerServiceViewModel.kt:1018-1029 | a shuffle order repeats no position |
| MediaPlayer.Finalize | app/src/main/java/mega/privacy/android/app/mediaplayer/service/MediaPlayerServiceViewModel.kt:1047-1053 | the item keeps its handle and name, and its header is hidden |
| MediaPlayer.Pick | app/src/main/java/mega/privacy/android/app/mediaplayer/service/MediaPlayerServiceViewModel.kt:1020-1027 | the items at the listed positions, in list order |
| MediaPlayer.PickPermutes | app/src/main/java/mega/privacy/android/app/mediaplayer/service/MediaPlayerServiceViewModel.kt:1013-1034 | reordering along a shuffle order is a permutation of the items |
| MediaPlayer.PositionIn | app/src/main/java/mega/privacy/android/app/mediaplayer/service/MediaPlayerServiceViewModel.kt:1016-1023 | the position found holds the value, or the value is absent |
| MediaPlayer.PositionOfEntry | app/src/main/java/mega/privacy/android/app/mediaplayer/service/MediaPlayerServiceViewModel.kt:1016-1023 | in a list without repeats each entry is found where it is |
| MediaPlayer.PositionOfMember | app/src/main/java/mega/privacy/android/app/mediaplayer/service/MediaPlayerServiceViewModel.kt:1016-1023 | an entry that occurs is found |
| MediaPlayer.IndexOfHandle | app/src/main/java/mega/privacy/android/app/mediaplayer/service/MediaPlayerServiceViewModel.kt:1158-1161 | the first item with that handle, or none when no item has it |
| MediaPlayer.PlayingPositionOf | app/src/main/java/mega/privacy/android/app/mediaplayer/service/MediaPlayerServiceViewModel.kt:1005-1009 | the first item with the playing handle, or 0 when none has it |
| MediaPlayer.Arrange | app/src/main/java/mega/privacy/android/app/mediaplayer/service/MediaPlayerServiceViewModel.kt:1005-1034 | a permutation of the items with the playing item at the new playing position; along the shuffle order when shuffling, unchanged otherwise |
| MediaPlayer.ArrangeAlongOrder | app/src/main/java/mega/privacy/android/app/mediaplayer/service/MediaPlayerServiceViewModel.kt:1013-1031 | shuffled arrangement is the items picked in play order, playing position at the playing item's place in the order |
| MediaPlayer.Projection | app/src/main/java/mega/privacy/android/app/mediaplayer/service/MediaPlayerServiceViewModel.kt:1041-1061 | same items, index = position, previous/playing/next by position, headers exactly on the playing item and on the first when something came before |
| MediaPlayer.Filtered | app/src/main/java/mega/privacy/android/app/mediaplayer/service/MediaPlayerServiceViewModel.kt:1076-1083 | every kept item is a case-insensitive match, finalized as previous with its original index |
| MediaPlayer.FilteredInOrder | app/src/main/java/mega/privacy/android/app/mediaplayer/service/MediaPlayerServiceViewModel.kt:1077-1083 | kept items keep list order (indices strictly increase) |
| MediaPlayer.FilteredKeepsEveryMatch | app/src/main/java/mega/privacy/android/app/mediaplayer/service/MediaPlayerServiceViewModel.kt:1077-1083 | every matching item is kept |
| MediaPlayer.WalkShuffleChain | app/src/main/java/mega/privacy/android/app/mediaplayer/service/MediaPlayerServiceViewModel.kt:1013-1031 | the two shuffle-chain loops build the items in play order and the playing item's place in it |
| MediaPlayer.WalkBack | app/src/main/java/mega/privacy/android/app/mediaplayer/service/MediaPlayerServiceViewModel.kt:1014-1023 | the backward loop yields the play order up to and including the playing item |
| MediaPlayer.WalkForward | app/src/main/java/mega/privacy/android/app/mediaplayer/service/MediaPlayerServiceViewModel.kt:1025-1029 | the forward loop completes the play order |
| MediaPlayer.ProjectPlaylist | app/src/main/java/mega/privacy/android/app/mediaplayer/service/MediaPlayerServiceViewModel.kt:1041-1061 | the tagging loop and header updates compute `Projection` |
| MediaPlayer.FilterItems | app/src/main/java/mega/privacy/android/app/mediaplayer/service/MediaPlayerServiceViewModel.kt:1076-1083 | the filtering loop computes `Filtered` |
| MediaPlayer.RemoveHandle | app/src/main/java/mega/privacy/android/app/mediaplayer/service/MediaPlayerServiceViewModel.kt:1166-1171 | the items without that handle remain, each as often as before (a multiset equation); nothing changes when none has it |
| MediaPlayer.RemoveHandleConcat | app/src/main/java/mega/privacy/android/app/mediaplayer/service/MediaPlayerServiceViewModel.kt:1166-1171 | the removal distributes over concatenation, so the kept items stay in order |
| MediaPlayer.RemoveHandleSingle | app/src/main/java/mega/privacy/android/app/mediaplayer/service/MediaPlayerServiceViewModel.kt:1166-1171 | one item stays exactly when its handle differs |
| MediaPlayer.RemoveMedia | app/src/main/java/mega/privacy/android/app/mediaplayer/service/MediaPlayerServiceViewModel.kt:1172-1174 | the media ids other than the handle remain, each as often as before (a multiset equation) |
| MediaPlayer.RemoveMediaConcat | app/src/main/java/mega/privacy/android/app/mediaplayer/service/MediaPlayerServiceViewModel.kt:1172-1174 | the removal distributes over concatenation, so the kept ids stay in order |
| MediaPlayer.RemoveMediaSingle | app/src/main/java/mega/privacy/android/app/mediaplayer/service/MediaPlayerServiceViewModel.kt:1172-1174 | one id stays exactly when it differs from the handle |
| MediaPlayer.ToggleAt | app/src/main/java/mega/privacy/android/app/mediaplayer/service/MediaPlayerServiceViewModel.kt:1203-1205 | only the selection flag of that item flips |
| MediaPlayer.ToggleTwice | app/src/main/java/mega/privacy/android/app/mediaplayer/service/MediaPlayerServiceViewModel.kt:1203-1205 | selecting the same item twice restores the list |
| MediaPlayer.SwapKeepingIndex | app/src/main/java/mega/privacy/android/app/mediaplayer/service/MediaPlayerServiceViewModel.kt:1357-1361 | the two items change places while each position keeps its index; others untouched |
| MediaPlayer.SwapTwice | app/src/main/java/mega/privacy/android/app/mediaplayer/service/MediaPlayerServiceViewModel.kt:1357-1361 | swapping the same two positions again restores the list |
| MediaPlayer.Swap | app/src/main/java/mega/privacy/android/app/mediaplayer/service/MediaPlayerServiceViewModel.kt:1365 | the two entries exchange places, others untouched, a permutation |
| MediaPlayer.ConvertToRepeatToggleMode | app/src/main/java/mega/privacy/android/app/mediaplayer/service/MediaPlayerServiceViewModel.kt:1332-1337 | NONE and ONE for their ordinals, ALL for every other number (each an iff) |
| MediaPlayer.RepeatModeRoundTrip | app/src/main/java/mega/privacy/android/app/mediaplayer/service/MediaPlayerServiceViewModel.kt:1332-1337 | a saved mode's ordinal reads back as that mode |
| MediaPlayer.Rebuild | app/src/main/java/mega/privacy/android/app/mediaplayer/service/MediaPlayerServiceViewModel.kt:1001-1069 | the playing position lies inside the list; what the list shows is proved in `RebuildShowsPlaying` (without a query every item is shown, only the playing one marked playing, scroll target at it), `RebuildKeepsOut` (no handle shown that the items lack) and `RemovedHandleNotShown` |
| MediaPlayer.RebuildShowsPlaying | app/src/main/java/mega/privacy/android/app/mediaplayer/service/MediaPlayerServiceViewModel.kt:1005-1069 | without a search every item is shown, only the playing item is marked playing, scroll target is its position (or -1) |
| MediaPlayer.RebuildKeepsOut | app/src/main/java/mega/privacy/android/app/mediaplayer/service/MediaPlayerServiceViewModel.kt:1011-1069 | the rebuilt list shows no handle the items did not have |
| MediaPlayer.RemovedHandleNotShown | app/src/main/java/mega/privacy/android/app/mediaplayer/service/MediaPlayerServiceViewModel.kt:1141-1177 | after a removal that happened the removed handle is shown nowhere |
| MediaPlayer.ToggleKeepsSelectionMatched | app/src/main/java/mega/privacy/android/app/mediaplayer/service/MediaPlayerServiceViewModel.kt:1203-1211 | with distinct handles, toggling plus the map update keeps list and selection map in step |
| MediaPlayer.MediaPlayerServiceViewModel.constructor | app/src/main/java/mega/privacy/android/app/mediaplayer/service/MediaPlayerServiceViewModel.kt:213-265 | empty lists, invalid playing handle, empty shuffle order, no query, empty selection, retry count 0 |
| MediaPlayer.MediaPlayerServiceViewModel.RecreateAndUpdatePlaylistItems | app/src/main/java/mega/privacy/android/app/mediaplayer/service/MediaPlayerServiceViewModel.kt:994-1071 | nothing for an empty list; otherwise exactly `Rebuild`, shuffling only when asked, shuffle is on and the order covers the list |
| MediaPlayer.MediaPlayerServiceViewModel.FilterPlaylistItems | app/src/main/java/mega/privacy/android/app/mediaplayer/service/MediaPlayerServiceViewModel.kt:1073-1088 | publishes the matches with scroll target 0; nothing for an empty list |
| MediaPlayer.MediaPlayerServiceViewModel.SearchQueryUpdate | app/src/main/java/mega/privacy/android/app/mediaplayer/service/MediaPlayerServiceViewModel.kt:1090-1094 | the new query is applied to the displayed list without reshuffling |
| MediaPlayer.MediaPlayerServiceViewModel.InitPlayerSourceChanged | app/src/main/java/mega/privacy/android/app/mediaplayer/service/MediaPlayerServiceViewModel.kt:1400-1407 | the edited play source starts from the current one only when empty |
| MediaPlayer.MediaPlayerServiceViewModel.RemoveSingleItem | app/src/main/java/mega/privacy/android/app/mediaplayer/service/MediaPlayerServiceViewModel.kt:1155-1177 | when the displayed position is a canonical position, the position is emitted and the handle leaves the displayed copy, the canonical list and the edited source; otherwise nothing changes |
| MediaPlayer.MediaPlayerServiceViewModel.RemoveItem | app/src/main/java/mega/privacy/android/app/mediaplayer/service/MediaPlayerServiceViewModel.kt:1141-1153 | the edited source starts from the current one; when the displayed position is a canonical one, the position is emitted and the handle leaves the canonical list and the edited source, otherwise both stay; with items left the retry state resets and the list is rebuilt from them; with none left the list empties, API_ENOENT is posted and retry state and playing position stay |
| MediaPlayer.MediaPlayerServiceViewModel.ShowRemaining | app/src/main/java/mega/privacy/android/app/mediaplayer/service/MediaPlayerServiceViewModel.kt:1144-1152 | with items left: retry counter 0, retry flag set, error untouched, and the list, scroll target and playing position rebuilt from them; with none: an empty list, scroll target 0, `API_ENOENT` posted, retry state and playing position untouched |
| MediaPlayer.MediaPlayerServiceViewModel.ItemSelected | app/src/main/java/mega/privacy/android/app/mediaplayer/service/MediaPlayerServiceViewModel.kt:1194-1218 | the first item with the handle flips; the handle is in the map exactly when it is now selected; the count is the map's size; list and map stay consistent |
| MediaPlayer.MediaPlayerServiceViewModel.SwapItems | app/src/main/java/mega/privacy/android/app/mediaplayer/service/MediaPlayerServiceViewModel.kt:1353-1366 | edited list swapped keeping indices, edited source swapped, each started from the current one when empty |
| MediaPlayer.MediaPlayerServiceViewModel.OnPlayerError | app/src/main/java/mega/privacy/android/app/mediaplayer/service/MediaPlayerServiceViewModel.kt:857-860 | one more error; retry allowed exactly up to MAX_RETRY errors |
| MediaPlayer.MediaPlayerServiceViewModel.ResetRetryState | app/src/main/java/mega/privacy/android/app/mediaplayer/service/MediaPlayerServiceViewModel.kt:1244-1247 | count 0 and retry allowed |
| MediaPlayer.MediaPlayerServiceViewModel.OnShuffleChanged | app/src/main/java/mega/privacy/android/app/mediaplayer/service/MediaPlayerServiceViewModel.kt:1409-1414 | the order is kept; the list is rebuilt along it exactly when shuffle is on and the order covers the non-empty list; otherwise list, scroll target and playing position stay |
| MediaPlayer.ErrorsAfterReset | app/src/main/java/mega/privacy/android/app/mediaplayer/service/MediaPlayerServiceViewModel.kt:857-860 | after a reset and n errors, retry is allowed exactly when n <= MAX_RETRY |
| CopyNode.ToMegaException | app/src/main/java/mega/privacy/android/app/usecase/CopyNodeUseCase.kt:90 | the error is hard exactly for the two quota codes, and never a foreign-node error |
| CopyNode.ShouldEmitError | app/src/main/java/mega/privacy/android/app/usecase/CopyNodeUseCase.kt:315-319 | a hard error is a quota error: it stands for the over-quota or going-over-quota code |
| CopyNode.CopyNode | app/src/main/java/mega/privacy/android/app/usecase/CopyNodeUseCase.kt:72-100 | missing node, then missing parent, fail without a request; otherwise the request is issued with the new name; OK completes; a failure keeps the code; foreign node exactly for over-quota into a foreign parent; nothing after disposal |
| CopyNode.CopyByHandles | app/src/main/java/mega/privacy/android/app/usecase/CopyNodeUseCase.kt:44-62 | a copy is issued exactly when both lookups find a node, keeping the name |
| CopyNode.FirstWithHandle | app/src/main/java/mega/privacy/android/app/usecase/CopyNodeUseCase.kt:125-130 | the node found is the first of the message with the handle (no earlier node has it); none found exactly when no node has it |
| CopyNode.FindChatNode | app/src/main/java/mega/privacy/android/app/usecase/CopyNodeUseCase.kt:122-133 | the `for … break` search finds `FirstWithHandle` |
| CopyNode.CollisionNode | app/src/main/java/mega/privacy/android/app/usecase/CopyNodeUseCase.kt:114-137 | an import takes the first node of the chat message with the collision's handle, and finds one whenever the message has it; a copy looks the handle up |
| CopyNode.CollisionCopyOf | app/src/main/java/mega/privacy/android/app/usecase/CopyNodeUseCase.kt:109-186 | a collision that is neither copy nor import, a missing node, a missing parent and a failed rubbish-bin move each end in their error without a copy; the copied node is the collision's node, renamed only when asked; a file kept by name sends the clashing node to the rubbish bin first; API_OK gives (1, 0), a soft failure (1, 1), a quota code a hard error carrying that code (each an iff); silent exactly after disposal |
| CopyNode.Classify | app/src/main/java/mega/privacy/android/app/usecase/CopyNodeUseCase.kt:315-319 | hard exactly for quota and foreign-node errors, soft otherwise |
| CopyNode.SoftCount | app/src/main/java/mega/privacy/android/app/usecase/CopyNodeUseCase.kt:204-209 | at most the number of items |
| CopyNode.Run | app/src/main/java/mega/privacy/android/app/usecase/CopyNodeUseCase.kt:195-222 | silent only with disposal; success reports every item and between the soft failures so far and that plus the items left; an error is a hard outcome at or after the current item |
| CopyNode.RunSuccessCounts | app/src/main/java/mega/privacy/android/app/usecase/CopyNodeUseCase.kt:214-221 | a successful batch reports every item and exactly the soft failures |
| CopyNode.RunErrorIsFirstHard | app/src/main/java/mega/privacy/android/app/usecase/CopyNodeUseCase.kt:202-210 | a failed batch reports the first hard failure |
| CopyNode.RunWithoutHardSucceeds | app/src/main/java/mega/privacy/android/app/usecase/CopyNodeUseCase.kt:202-221 | without disposal or hard failure the batch succeeds |
| CopyNode.OfCall | app/src/main/java/mega/privacy/android/app/usecase/CopyNodeUseCase.kt:293-295 | a hard outcome carries a hard error |
| CopyNode.OfCollision | app/src/main/java/mega/privacy/android/app/usecase/CopyNodeUseCase.kt:205-209 | a hard outcome carries a hard error |
| CopyNode.CollisionOutcomes | app/src/main/java/mega/privacy/android/app/usecase/CopyNodeUseCase.kt:202-210 | one outcome per collision |
| CopyNode.NodeOutcomes | app/src/main/java/mega/privacy/android/app/usecase/CopyNodeUseCase.kt:288-296 | one outcome per node |
| CopyNode.HandleOutcomes | app/src/main/java/mega/privacy/android/app/usecase/CopyNodeUseCase.kt:242-256 | one outcome per handle |
| CopyNode.CopyCollisions | app/src/main/java/mega/privacy/android/app/usecase/CopyNodeUseCase.kt:195-222 | the loop signals exactly `Run` over the collisions' outcomes |
| CopyNode.CopyNodes | app/src/main/java/mega/privacy/android/app/usecase/CopyNodeUseCase.kt:277-307 | missing parent fails first; otherwise exactly `Run` over the nodes' outcomes |
| CopyNode.CopyHandles | app/src/main/java/mega/privacy/android/app/usecase/CopyNodeUseCase.kt:231-268 | missing parent fails first; a handle without node is a soft failure; otherwise exactly `Run` |
| CopyNode.BatchGuarantees | app/src/main/java/mega/privacy/android/app/usecase/CopyNodeUseCase.kt:195-307 | success reports all items and only soft failures (errorCount <= count); failure is a hard error; no hard outcome and no disposal means success |
| RemoveNode.Remove | app/src/main/java/mega/privacy/android/app/usecase/RemoveNodeUseCase.kt:46-67 | missing node fails without a call; OK completes exactly; EMASTERONLY is the illegal-state error exactly; others keep their code; a disposed subscriber receives nothing |
| RemoveNode.FailureCount | app/src/main/java/mega/privacy/android/app/usecase/RemoveNodeUseCase.kt:79-89 | at most the number of handles |
| RemoveNode.RemoveHandles | app/src/main/java/mega/privacy/android/app/usecase/RemoveNodeUseCase.kt:75-97 | count is the number of handles; errorCount is the failing handles |
| RemoveNode.FailuresAreMissingPlusRefused | app/src/main/java/mega/privacy/android/app/usecase/RemoveNodeUseCase.kt:79-89 | failures are the missing nodes plus the refused removals |
| SyncRecords.LastIndexOf | app/src/main/java/mega/privacy/android/app/domain/usecase/DefaultSaveSyncRecordsToDB.kt:132 | the found position holds the character and none follows it; -1 when absent |
| SyncRecords.LastIndexOfUnique | app/src/main/java/mega/privacy/android/app/domain/usecase/DefaultSaveSyncRecordsToDB.kt:132 | the last occurrence is determined by those properties |
| SyncRecords.NoneDuplicatedDeviceFileName | app/src/main/java/mega/privacy/android/app/domain/usecase/DefaultSaveSyncRecordsToDB.kt:126-138 | index 0 keeps the name; otherwise `_index` before the last dot, or `_index` alone without a dot past position 0 |
| SyncRecords.IndexedNameRoundTrip | app/src/main/java/mega/privacy/android/app/domain/usecase/DefaultSaveSyncRecordsToDB.kt:126-138 | removing `_index` gives back the name; the indexed name's last dot is the original extension's |
| SyncRecords.IndexedNamesDistinct | app/src/main/java/mega/privacy/android/app/domain/usecase/DefaultSaveSyncRecordsToDB.kt:126-138 | different indices give different names |
| SyncRecords.Extension | app/src/main/java/mega/privacy/android/app/domain/usecase/DefaultSaveSyncRecordsToDB.kt:105-111 | empty for a null name; otherwise a suffix of the name holding no literal backslash-dot (the last piece of the split) |
| SyncRecords.ExtensionOfOrdinaryName | app/src/main/java/mega/privacy/android/app/domain/usecase/DefaultSaveSyncRecordsToDB.kt:105-111 | a name without backslash-dot is its own "extension" |
| SyncRecords.NewPath | app/src/main/java/mega/privacy/android/app/domain/usecase/DefaultSaveSyncRecordsToDB.kt:113 | starts with the rendered root path, ends with "." and the extension, and is longer than the root plus one |
| SyncRecords.NewPathOfOrdinaryName | app/src/main/java/mega/privacy/android/app/domain/usecase/DefaultSaveSyncRecordsToDB.kt:105-113 | for an ordinary name the path is root, clock, "." and the whole name |
| SyncRecords.DedupDecision | app/src/main/java/mega/privacy/android/app/domain/usecase/DefaultSaveSyncRecordsToDB.kt:46-60 | skip exactly when both timestamps are known and the existing one is not older; an older one is deleted by its path on its side |
| SyncRecords.FirstByFingerprint | app/src/main/java/mega/privacy/android/app/domain/usecase/DefaultSaveSyncRecordsToDB.kt:43-45 | none exactly when no row has that fingerprint, side and copy kind; otherwise a row with that key before which no row has it |
| SyncRecords.WithoutPath | app/src/main/java/mega/privacy/android/app/domain/usecase/DefaultSaveSyncRecordsToDB.kt:52 | the rows not on that path and side remain, each as often as before (a multiset equation) |
| SyncRecords.WithoutPathConcat | app/src/main/java/mega/privacy/android/app/domain/usecase/DefaultSaveSyncRecordsToDB.kt:52 | the deletion distributes over concatenation, so the kept rows stay in order |
| SyncRecords.WithoutPathSingle | app/src/main/java/mega/privacy/android/app/domain/usecase/DefaultSaveSyncRecordsToDB.kt:52 | one row stays exactly when it is not on that path and side |
| SyncRecords.SyncRecordStore.GetSyncRecordByFingerprint | app/src/main/java/mega/privacy/android/app/domain/usecase/DefaultSaveSyncRecordsToDB.kt:43-45 | a found row is in the table with the key; none exactly when no row has it |
| SyncRecords.SyncRecordStore.DeleteSyncRecordByLocalPath | app/src/main/java/mega/privacy/android/app/domain/usecase/DefaultSaveSyncRecordsToDB.kt:52 | the table becomes `WithoutPath` |
| SyncRecords.SyncRecordStore.SaveSyncRecord | app/src/main/java/mega/privacy/android/app/domain/usecase/DefaultSaveSyncRecordsToDB.kt:116 | the record is appended |
| SyncRecords.InjectiveImageSize | app/src/main/java/mega/privacy/android/app/domain/usecase/DefaultSaveSyncRecordsToDB.kt:82-102 | n distinct indices give n distinct names |
| SyncRecords.FreeIndexExists | app/src/main/java/mega/privacy/android/app/domain/usecase/DefaultSaveSyncRecordsToDB.kt:82-102 | among the first |taken| + 1 indices one name is free, so the probe loops end |
| SyncRecords.FreeDeviceIndex | app/src/main/java/mega/privacy/android/app/domain/usecase/DefaultSaveSyncRecordsToDB.kt:82-91 | some device-name index is free |
| SyncRecords.ProbeDeviceName | app/src/main/java/mega/privacy/android/app/domain/usecase/DefaultSaveSyncRecordsToDB.kt:79-91 | the first index whose name is neither in the cloud folder nor in the database |
| SyncRecords.ProbeMegaName | app/src/main/java/mega/privacy/android/app/domain/usecase/DefaultSaveSyncRecordsToDB.kt:93-102 | the first index whose MEGA name is free in the cloud folder and the database |
| SyncRecords.ChooseName | app/src/main/java/mega/privacy/android/app/domain/usecase/DefaultSaveSyncRecordsToDB.kt:75-103 | the name comes from the preference's probe: the first free index |
| SyncRecords.UploadParent | app/src/main/java/mega/privacy/android/app/domain/usecase/DefaultSaveSyncRecordsToDB.kt:62-63 | the secondary upload folder for secondary records, the primary one otherwise |
| SyncRecords.SaveRecord | app/src/main/java/mega/privacy/android/app/domain/usecase/DefaultSaveSyncRecordsToDB.kt:39-117 | skipped exactly on a duplicate; removed exactly for a missing local file; otherwise saved with the chosen name and new path, after the dedup deletion |
| SyncRecords.SaveSyncRecordsToDB | app/src/main/java/mega/privacy/android/app/domain/usecase/DefaultSaveSyncRecordsToDB.kt:32-119 | one outcome per record; each saved record is its input with a new name and path; each removed one had lost its file; the table grows by at most the list's size |
| UploadUtil.GetSdCardRoot | app/src/main/java/mega/privacy/android/app/utils/UploadUtil.java:97-112 | the result is the SD-card root: a prefix of the path cut before its third '/' (the whole path with fewer) |
| UploadUtil.SlashCountPrefixes | app/src/main/java/mega/privacy/android/app/utils/UploadUtil.java:101-108 | the '/' count grows with the prefix |
| UploadUtil.RootEnd | app/src/main/java/mega/privacy/android/app/utils/UploadUtil.java:100-110 | the scan stops at the third '/' or at the end, with fewer than three before it |
| UploadUtil.SdCardRoot | app/src/main/java/mega/privacy/android/app/utils/UploadUtil.java:97-112 | a prefix of the path with fewer than three '/', followed in the path by a '/' when it is shorter |
| UploadUtil.SdCardRootIsRoot | app/src/main/java/mega/privacy/android/app/utils/UploadUtil.java:97-112 | the value definition meets the requirements |
| UploadUtil.SdCardRootUnique | app/src/main/java/mega/privacy/android/app/utils/UploadUtil.java:97-112 | at most one string meets them |
| UploadUtil.GetSdCardRootAgrees | app/src/main/java/mega/privacy/android/app/utils/UploadUtil.java:97-112 | the loop's result is the value definition |
| UploadUtil.SdCardRootIdempotent | app/src/main/java/mega/privacy/android/app/utils/UploadUtil.java:97-112 | the root of a root is itself |
| OfflineFile.DropSeparators | domain/src/main/kotlin/mega/privacy/android/domain/usecase/DefaultGetOfflineFile.kt:31 | the components other than the separator remain, each as often as before (a multiset equation); none dropped when none is one |
| OfflineFile.DropSeparatorsConcat | domain/src/main/kotlin/mega/privacy/android/domain/usecase/DefaultGetOfflineFile.kt:31 | the filter distributes over concatenation, so the kept components stay in order |
| OfflineFile.DropSeparatorsSingle | domain/src/main/kotlin/mega/privacy/android/domain/usecase/DefaultGetOfflineFile.kt:31 | one component stays exactly when it is not the separator |
| OfflineFile.GetFile | domain/src/main/kotlin/mega/privacy/android/domain/usecase/DefaultGetOfflineFile.kt:30-32 | empty when nothing is kept; otherwise starts with the first kept component and ends with the last |
| OfflineFile.GetFileEnds | domain/src/main/kotlin/mega/privacy/android/domain/usecase/DefaultGetOfflineFile.kt:30-32 | a path built from a root, middle components and a name starts with the root and ends with the name, unless either is the bare separator |
| OfflineFile.GetOfflineFile | domain/src/main/kotlin/mega/privacy/android/domain/usecase/DefaultGetOfflineFile.kt:12-28 | starts with the inbox root for inbox nodes and the offline root otherwise (unless that root is the bare separator), and ends with the node's name unless the name is the bare separator |
| OfflineFile.GetOfflineFileOrder | domain/src/main/kotlin/mega/privacy/android/domain/usecase/DefaultGetOfflineFile.kt:12-28 | inbox: inbox root/path/name; incoming share: root/handle/path/name; otherwise root/path/name |
| OfflineFile.GetFileThree | domain/src/main/kotlin/mega/privacy/android/domain/usecase/DefaultGetOfflineFile.kt:30-32 | three components are joined with one separator each |
| OfflineFile.GetFileFour | domain/src/main/kotlin/mega/privacy/android/domain/usecase/DefaultGetOfflineFile.kt:30-32 | four components are joined with one separator each |
| OfflineFile.GetFileDropsSeparator | domain/src/main/kotlin/mega/privacy/android/domain/usecase/DefaultGetOfflineFile.kt:31 | a component that is the separator is dropped, not doubled |
| OfflineFile.SplitAtFirstSeparator | domain/src/main/kotlin/mega/privacy/android/domain/usecase/DefaultGetOfflineFile.kt:32 | splitting after a separator-free first component gives it back first |
| OfflineFile.GetFileSplits | domain/src/main/kotlin/mega/privacy/android/domain/usecase/DefaultGetOfflineFile.kt:30-32 | splitting the joined path gives back separator-free components |
| FileBrowser.FileBrowserViewModel.constructor | app/src/main/java/mega/privacy/android/app/presentation/clouddrive/FileBrowserViewModel.kt:42-87 | handles invalid, setting INITIAL, empty stack; then the first refresh gives the children (none for null) and parent of INVALID_HANDLE |
| FileBrowser.FileBrowserViewModel.OnMediaDiscoverySetting | app/src/main/java/mega/privacy/android/app/presentation/clouddrive/FileBrowserViewModel.kt:63-74 | a null setting becomes INITIAL; nothing else changes |
| FileBrowser.FileBrowserViewModel.RefreshNodes | app/src/main/java/mega/privacy/android/app/presentation/clouddrive/FileBrowserViewModel.kt:143-152 | children (none for null) and parent of the current folder |
| FileBrowser.FileBrowserViewModel.SetBrowserParentHandle | app/src/main/java/mega/privacy/android/app/presentation/clouddrive/FileBrowserViewModel.kt:94-102 | both handles set, then refreshed for the new folder |
| FileBrowser.FileBrowserViewModel.GetSafeBrowserParentHandle | app/src/main/java/mega/privacy/android/app/presentation/clouddrive/FileBrowserViewModel.kt:110-115 | an unset handle becomes the root's, or INVALID_HANDLE without a root; the handle is returned |
| FileBrowser.FileBrowserViewModel.OnBackPressed | app/src/main/java/mega/privacy/android/app/presentation/clouddrive/FileBrowserViewModel.kt:157-161 | goes to the parent when there is one; nothing changes otherwise |
| FileBrowser.FileBrowserViewModel.PopLastPositionStack | app/src/main/java/mega/privacy/android/app/presentation/clouddrive/FileBrowserViewModel.kt:168 | the top is removed and returned; 0 and no change on an empty stack |
| FileBrowser.FileBrowserViewModel.OnFolderItemClicked | app/src/main/java/mega/privacy/android/app/presentation/clouddrive/FileBrowserViewModel.kt:174-186 | the position is pushed, then the folder opened |
| FileBrowser.FileBrowserViewModel.EnterThenPop | app/src/main/java/mega/privacy/android/app/presentation/clouddrive/FileBrowserViewModel.kt:168-186 | opening a folder then popping returns the saved position and restores the stack |
| FileBrowser.FileBrowserViewModel.ShouldEnterMDMode | app/src/main/java/mega/privacy/android/app/presentation/clouddrive/FileBrowserViewModel.kt:120-138 | true exactly when there are nodes, the setting is ENABLED or INITIAL, and every node is an image or playable video file |
| ScanCode.ParseInvite | app/src/main/java/mega/privacy/android/app/presentation/qrcode/scan/ScanCodeFragment.kt:271-285 | queried exactly when a "C!" occurs and the text before the first is the MEGA prefix; the handle is the next piece |
| ScanCode.InviteRoundTrip | app/src/main/java/mega/privacy/android/app/presentation/qrcode/scan/ScanCodeFragment.kt:271-285 | prefix + "C!" + a handle without "C!" parses back to that handle |
| ScanCode.ScanCodeScreen.constructor | app/src/main/java/mega/privacy/android/app/presentation/qrcode/scan/ScanCodeFragment.kt:61-64 | no errors, no retries, no dialogs, nothing queried |
| ScanCode.ScanCodeScreen.OnPreviewError | app/src/main/java/mega/privacy/android/app/presentation/qrcode/scan/ScanCodeFragment.kt:170-181 | the counter grows by one; a restart is scheduled exactly for the first START_PREVIEW_RETRY errors |
| ScanCode.ScanCodeScreen.Invite | app/src/main/java/mega/privacy/android/app/presentation/qrcode/scan/ScanCodeFragment.kt:271-285 | the preview restarts; the invalid label shows exactly for an invalid text; a valid one queries its handle |
| ScanCode.ScanCodeScreen.OnDecoded | app/src/main/java/mega/privacy/android/app/presentation/qrcode/scan/ScanCodeFragment.kt:162-168 | a decoded text is acted on only when no dialog is showing |
| ScanCode.PreviewErrors | app/src/main/java/mega/privacy/android/app/presentation/qrcode/scan/ScanCodeFragment.kt:170-181 | after n errors, min(n, START_PREVIEW_RETRY) restarts were scheduled |
| Environment.NormalizeManufacturer | data/src/main/java/mega/privacy/android/data/repository/EnvironmentRepositoryImpl.kt:36-38 | any spelling of "HTC" becomes "HTC"; any other name is kept as is |
| Environment.UppercaseHtc | data/src/main/java/mega/privacy/android/data/repository/EnvironmentRepositoryImpl.kt:37 | upper-casing a case-insensitive "HTC" gives "HTC" |
| Environment.DeviceName | data/src/main/java/mega/privacy/android/data/repository/EnvironmentRepositoryImpl.kt:35-41 | the shown manufacturer (exactly "HTC" for any spelling of it, the manufacturer otherwise), one space, then the model unchanged |
| Environment.GetDeviceInfo | data/src/main/java/mega/privacy/android/data/repository/EnvironmentRepositoryImpl.kt:32-43 | the device name and the language, unchanged |
| Common.Split | app/src/main/java/mega/privacy/android/app/domain/usecase/DefaultSaveSyncRecordsToDB.kt:106 | at least one piece; exactly the whole string when the delimiter does not occur |
| Common.SplitJoin | app/src/main/java/mega/privacy/android/app/domain/usecase/DefaultSaveSyncRecordsToDB.kt:106 | re-joining the pieces with the delimiter gives the string back |
| Common.SplitPiecesFree | app/src/main/java/mega/privacy/android/app/domain/usecase/DefaultSaveSyncRecordsToDB.kt:106 | no piece holds the delimiter |
| Common.Join | domain/src/main/kotlin/mega/privacy/android/domain/usecase/DefaultGetOfflineFile.kt:31-32 | empty for no pieces; otherwise starts with the first piece |
| Common.JoinEndsWithLast | domain/src/main/kotlin/mega/privacy/android/domain/usecase/DefaultGetOfflineFile.kt:31-32 | the joined string ends with the last piece |

## Left out

- Threads, schedulers, coroutine dispatchers, RxJava disposal, `LiveData` and flows are not
  modelled. Each callback runs to completion, in order. Disposal is a flag (`disposed`,
  `cancelAt`) set before or between items.
- Logging (Timber), resource strings, message texts and `resetAccountDetailsIfNeeded` are
  out. `MoveRequestResult.getResultText` and `CopyRequestResult.getResultText` are also out.
- The name-collision result use case is not part of this model. It covers reordering,
  completing collisions and updating rename names. `SetData` receives what the reorder step
  produced. `Rename` receives whether the update succeeded.
- Upload, move and copy use cases called by the collision screen become an outcome
  parameter, `Done` or `Error`.
- `updateFileVersioningInfo`, the file-versioning option and `setSingleData` are not
  modelled. They produce only display information.
- NameCollision.NameCollisionViewModel.ProceedWithAction: its `requires` exclude the calls
  where the source throws on a null current collision. That is every call without a current
  collision, except a single choice in a folder-upload context. A null `Context` is not
  modelled.
- NameCollision.NameCollisionViewModel.Rename: the update of the pending collisions' rename
  names is not part of this model. It arrives as a success flag, and the pending collisions
  keep their names.
- NameCollision.NameCollisionViewModel.SetData: requires a non-empty reorder result. The
  source's `reorderedCollisions[0]` throws on an empty one, and the screen passes on any
  non-null list without checking that it has an element. That throw is not modelled.
- NameCollision.NameCollisionViewModel.ProceedWithAllFiles: requires the file counter to be
  at most the number of files pending. The source reads `pendingCollisions[0]` once per
  counted file and would throw past the list's end. Once the counters match the list, the
  operations keep them matching (`ProceedKeepsCountersMatch`, `SweepKeepsCountersMatch`,
  `CancelOutcomes`), and the screen offers "apply for all" only when the counter exceeds one.
- NameCollision.NameCollisionViewModel.Cancel: the file sweep requires a current collision
  and the file counter to be at most the files pending; cancelling everything in a folder
  upload requires a current collision. The source would throw in those cases, through
  `currentCollision.value!!` or `pendingCollisions[0]`.
- NameCollision.NameCollisionViewModel.ProceedWithAction: the file sweep also requires the
  file counter to be at most the files pending, as for `ProceedWithAllFiles`.
- NameCollision.NameCollisionViewModel.Rename: requires a current collision that has a
  rename name. The source's `renameName!!` throws without one. With the names updated it
  also requires what `ProceedWithAction` requires, the file counter included.
- NameCollision.NameCollisionViewModel.GetAllPendingCollisions: requires a current
  collision. The source's `currentCollision.value!!` throws without one.
- NameCollision.NameCollisionViewModel.CancelAll: requires a current collision in a folder
  upload, where the source's `currentCollision.value!!` throws without one.
- NameCollision.NameCollisionViewModel.SingleUpload: requires a current collision outside a
  folder upload. The source's `currentCollision.value!!` throws without one.
- NameCollision.NameCollisionViewModel.SingleTransfer: requires a current collision. The
  source's `currentCollision.value!!` in the move and the copy throws without one.
- Setting a collision's choice is modelled on values, not as an update in place. The source
  mutates the shared `NameCollisionResult` object. The log therefore holds tagged copies, and
  the aliasing with the pending list is not captured.
- MediaPlayer.Finalize: `PlaylistItem.finalizeItem` is not part of this model. `Finalize` is
  taken to set index, type and selection and to hide the header, as its call sites use it.
  Duration, thumbnails and the remaining fields of `PlaylistItem` are out.
- MediaPlayer.MediaPlayerServiceViewModel.SwapItems: requires both positions to lie inside
  the edited list and the edited play source. `Collections.swap` throws an
  `IndexOutOfBoundsException` otherwise, and that exception is not modelled.
- MediaPlayer.ConvertToRepeatToggleMode: the ordinals of `RepeatToggleMode` are not part of
  this model. They are taken as NONE 0, ONE 1, ALL 2, the declaration order.
- MediaPlayer: ExoPlayer's `ShuffleOrder` is modelled as a list of positions. Its next and
  previous indices follow that list. It is assumed to be a permutation, which is what
  ExoPlayer promises.
- MediaPlayer: `TextUtil.isTextEmpty` is taken as null or empty. `contains(filter, true)` is
  modelled with ASCII-only case folding.
- MediaPlayer: the following operations are not modelled:
  - building play sources and the playlist title;
  - streaming servers, node fetching and playback-position tracking;
  - `setShuffleEnabled` and `setCurrentPlayingHandle`;
  - `removeAllSelectedItems`, `clearSelections`, `updateItemName` and `updatePlaySource`.

  These are node, SDK and player plumbing, or simple assignments.
- OfflineFile.GetFile: `java.io.File` normalises the path it is given. It collapses
  repeated separators and drops a trailing one. The model returns the joined string as is,
  so a component such as "/Photos/" gives a doubled separator the source would not keep.
- CopyNode: the `toMegaException` mapping is not part of this model. Over-quota and
  going-over-quota are taken to give their own exception types, and any other code a
  generic one.
- CopyNode: the rubbish-bin move's own SDK request is an oracle returning an optional
  error.
- RemoveNode: `megaApi.getNodeByHandle` is an existence oracle.
- SyncRecords: the following are oracles:
  - the file system's `exists`;
  - `lastModified`;
  - `getChildMegaNode`;
  - `Util.getPhotoSyncNameWithIndex`;
  - the keep-file-names preference;
  - `nanoTime`.

  A null upload folder has no children. The sync-record table is a list of rows.
  `fileNameExists` searches the file names on one side.
- SyncRecords.ProbeMegaName: requires that `Util.getPhotoSyncNameWithIndex` never repeats a
  name across indices. The source relies on this for the probe loop to end, but the
  function is not part of this model.
- SyncRecords.SaveRecord: the chosen name and the new path are returned in the outcome, as
  an updated copy of the record. The source sets `fileName` and `newPath` on the caller's own
  `SyncRecord` in place, and that aliasing is not captured: the caller's records are left
  unchanged here. The same holds for `SyncRecords.SaveSyncRecordsToDB`, which collects the
  outcomes.
- SyncRecords.SaveSyncRecordsToDB: its list-level contract keeps what each record's outcome
  says about the record, plus a bound on the table's size. It does not restate the exact
  table after each record, because the per-record table contract is stated by
  `SyncRecords.SaveRecord`.
- Integer widths (Kotlin `Int` and `Long`, Java `int`) are unbounded here. No counter in
  the core comes near overflowing.
- FileBrowser: the `MediaDiscoveryViewSettings` ordinals are not part of this model. They
  are taken as INITIAL 0, ENABLED 1, DISABLED 2. `MimeTypeList` becomes per-node image and
  playable-video flags. `getRootFolder` and the node lookups are parameters.
- FileBrowser.FileBrowserViewModel.constructor: `FileBrowserState` is not part of this model.
  Its defaults are assumed: both handles INVALID_HANDLE, the setting INITIAL. The first
  `refreshNodes` of `init` is run, for INVALID_HANDLE. Later refreshes on each
  `monitorNodeUpdates` event are separate `RefreshNodes` calls.
- ScanCode: the camera, dialogs and contact-link query results are out. The decode
  callback's UI thread hop and the retry delay are out. Only the counts of preview starts
  and scheduled restarts are kept.
- Environment: the device gateway is a parameter. `equals("HTC", true)` and `uppercase()`
  use ASCII-only case folding. `getAppInfo` and the version-code functions are out; they
  only forward gateway values.
- UploadUtil: `File.getPath` is taken as the input string.
