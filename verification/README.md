# Verification model of the net-disk server

This project models the net-disk server in Dafny 4.11 and proves what its state machines keep. It covers
resumable upload and download of files, the virtual folder tree over the tables `t_file` and `t_user_file`
with deduplicated storage, the thread pool, the one-shot receive pipeline with its framing, and the list
that hands finished uploads over to a distributed store.

`dafny verify dfyconfig.toml` checks everything.

## How the model is built

The handlers and loops that change things in place are classes and methods. Each is proved equal to a
function on values (`Upload.BlockReceived`, `ThreadPool.Manage`, `DeleteTree.Prune`, ...). The theorems are
about these functions: one step at a time for invariants, then over every finite sequence of steps.

| module | what it models |
|---|---|
| `Transfer`, `TransferState`, `TransferHandlers` | task keys; files, descriptors and the task map; the seven transfer handlers as methods of `CLogic` |
| `Upload`, `Download` | one upload, one download, each with its client, step by step |
| `Answers`, `TableAnswers` | what each request is answered and exactly what it changes, said of tables, files and descriptors alone |
| `TransferRuns` | whole runs: any number of uploads and downloads on one task map, deletions, shares, folders and restarts |
| `ResumeSize`, `LateRequests`, `LateDownloads`, `HandOver` | the size a resumption trusts; requests that were given up and are processed late; finished uploads on the transfer list |
| `TransferProgress` | that uploads can be finished and downloads completed from every state of a run |
| `Isolation`, `DownloadLength` | the handlers of one transfer next to another; the number of blocks of a download without failures |
| `Tables`, `FolderTree`, `ShareCopy`, `CopyInPlace`, `DeleteTree`, `FolderDownload`, `FolderRuns`, `Storage`, `StrayRows` | the tables and the handlers that treat rows as a tree |
| `ThreadPool`, `ThreadPoolOvercount`, `ThreadPoolProgress` | the pool and its manager, as interleaved lock regions; how many threads it can count; when its tasks are run |
| `Framing`, `EventLoop`, `OneShot`, `OneShotProgress`, `SocketMap`, `RingPipeline` | packets, the event record, the receive pipeline, the map from sockets to records, the pipeline on the pool's ring |
| `TransferList` | `FileWriter`, `FileTransferTask`, `TransferListWatcher` |
| `LockedMap`, `Text`, `Sequences`, `Wrappers` | helpers |

What the outside world decides is a parameter: what `open`, `write`, `read`, `recv`, `mkdir`,
`pthread_create`, `random` and `uploadFile` return, which worker runs next, when the process is restarted.
The other party is modelled too. Upload clients send blocks of a source, take answers, lose them, and ask
where to go on. Download clients take or refuse blocks and resume from what they have. Requests that a client
has given up may still be processed, at any later time and in any phase of the client: blocks and resume
requests of an upload, header answers, block answers and resume requests of a download. The runs contain all of
them that do no harm (`Upload.BlockIsHarmless`, `Upload.ResumeIsHarmless`, `Download.HeaderIsHarmless`,
`Download.AnswerIsHarmless`, `Download.AskIsHarmless`), and for each kind it is proved that these are exactly
the ones after which the transfer stays safe in all runs.

Assumptions, all of them the code's own or the protocol's:

* SQL statements succeed and `SELECT` returns lowest ids first; a handler is one atomic step.
* md5 values and folder names contain no `/`, directories end in `/`, and no md5 value is `?`.
* At most one unfinished upload is under way for a disk path, and a client that leaves for good has no request
  on its way; `LateRequests.LeftBlockSpoilsUnless` shows what happens otherwise. A client does not use the
  timestamp of a transfer that it still has under way for another one.
* A file is not deleted while it is being uploaded or downloaded. Every other deletion is part of the runs.
* A client takes only the answer to what it asked last; an answer to something that it has given up is lost.
* A `pthread_create` that fails leaves the entry of `tids` as it was.

## Where the code falls short of what one would expect

Each of these is a theorem. Where the code behaves under some condition, the condition is proved exact.

* An upload over an older, abandoned row of the same path is recorded under that row, whose size a later
  resumption trusts. If that size is smaller, some run marks the file finished before it is whole
  (`ResumeSize.SafeIffSizeKept`). It never happens when equal md5 values come with equal sizes
  (`ResumeSize.HonestSizesKept`).
* A block or a resume request of an upload that is processed after the client has given it up spoils the file in
  some run, unless it is harmless (`LateRequests.LateBlockSafeIff`, `LateRequests.LateResumeSafeIff`; runs are
  `LateRequests.GivenUpBlockSpoils`, `LateRequests.GivenUpResumeSpoils`). Likewise for the requests of a download
  (`LateDownloads.LateAskSafeIff`, `LateDownloads.LateAnswerSafeIff`, `LateDownloads.LateHeaderSafeIff`; wrong
  bytes in `LateDownloads.GivenUpAskCorruptsUnless`).
* An upload that starts over an unfinished file takes it away from those who download it. They stay safe if and
  only if they have nothing of it yet (`LateDownloads.StartSafeIff`).
* A file that is uploaded, deleted and uploaded again is printed to the transfer list twice, and the watcher
  then skips the second line (`HandOver.PrintedAgainIff`, `HandOver.FinishedFilesAreTransferred`).
* A file that has to be fetched from the distributed store lands in the working directory. The client gets its
  header, and a block follows if and only if the path exists all the same and opens (`Download.FetchedIsSentIff`).
  A task without a working descriptor never sends a byte (`Download.UnreadableSendsNothing`).
* A new folder whose path has a leftover row of a plain file becomes that file in the user's listing, and only
  then (`Storage.FolderIsListed`, `StrayRows.FolderBecomesFile`).
* A folder share that goes into the sender's own tree does not end if, and only if, the copied folder leads
  to the target directory (`ShareCopy.EndsIff`). One that goes to the directory of the folder itself doubles
  every row (`CopyInPlace.CopyInPlaceDoubles`).
* `recv_task` closes its socket before it erases the map entry. An accept that gets the same descriptor in
  between loses its entry, and only then (`SocketMap.AcceptSafeIff`).
* A packet whose four length bytes do not come in one read is not received (`Framing.FrameReceivedIff`). A
  connection that ends inside them delivers an empty packet that nobody sent (`Framing.CutSession`), and a
  negative length terminates the server (`EventLoop.Server.RecvTask`).
* The event loop passes over a report without `EPOLLIN`; the disarmed record then stays, and nobody works on it
  (`OneShot.OneClaim`).
* The pool's manager counts a worker even when `pthread_create` failed, and `if_thread_alive` takes an exited
  thread for alive, because `pthread_kill` never returns -1. The exact maximum of the counter is
  `ThreadPoolOvercount.Peak`. It is above `thread_max` exactly for `2 <= thread_min < thread_max` with room in the
  queue, except for the pool of at most 4 and at least 2 threads with one place in the queue
  (`ThreadPoolOvercount.PeakIsExact`, `ThreadPoolOvercount.OvercountIff`).
* A creation that failed is counted as a worker, so all real workers may be retired in its favour. A pool can die
  with a task waiting for ever exactly if its queue has room and it has no initial worker or fewer than the maximum
  (`ThreadPoolProgress.DiesIff`). As long as fewer creations have failed than there are initial workers, every task
  can be run (`ThreadPoolProgress.EverythingCanBeRun`).
* A name with a newline does not survive the transfer list, and nothing else is lost there
  (`TransferList.ListRoundTripIff`).
* An unknown share link is answered twice, with 0 and then with 1, because the branch does not return
  (`Storage.GetShareRq`).

## Model

| member | source | states |
|---|---|---|
| Transfer.KeyInjective | src/clogic.cpp:232 | the keys of two (user, timestamp) pairs are equal only if the pairs are, for all 32-bit timestamps |
| Transfer.KeyFitsIff | include/clogic.h:68-70 | exactly the user ids up to 922337203 have keys that fit in 64 bits with every timestamp |
| TransferRuns.UploadSafety | src/clogic.cpp:268-336 | in every run of any number of uploads and downloads, with full and short writes, errors, lost answers, harmless late blocks and late resume requests, restarts, resumptions, deletions and other handlers in between: an upload's file is a prefix of the client's source, the whole of it once `f_state` is 1; the descriptor stands at `pos`, where a client in touch with the server stands too. No upload of the runs starts over a smaller old row (`Upload.SizeKept`) |
| TransferRuns.AfterKeepsInv | src/clogic.cpp:177-551 | every run keeps the tables sound, every task on a descriptor of its own, and all uploads and downloads in step |
| TransferRuns.DownloadOfUpload | src/clogic.cpp:268-551 | what a client has downloaded of a file that another client uploads, or has uploaded, is the beginning of the latter's source |
| Upload.BlockKeepsSession | src/clogic.cpp:288-325 | one block with any outcome of `write` keeps file, position, row and client in step; a short write with its seek back leaves the position where the client repeats the block |
| Upload.ContinueKeepsSession | src/clogic.cpp:866-919 | a resume request, with or without the task still in memory, ends with `pos` and offset at the end of the file, which is what the client is told; otherwise there was nothing to resume |
| Answers.BlockAnswer | src/clogic.cpp:268-335 | a block is answered if and only if its task has a descriptor on an existing file and `write` does not fail, whatever becomes of the task: with its length, and with 1 exactly if it was written in full |
| Answers.BlockEffect | src/clogic.cpp:288-328 | what was written is in the file where the descriptor stood; the upload is complete if and only if a full block reaches the size, and then task and descriptor go, the row is finished and the name listed; otherwise a full block moves `pos` and offset on, and a short one leaves both |
| Answers.ResumedFromRow | src/clogic.cpp:876-919 | a resumption without a task is answered if and only if the user has the file in that directory, unfinished, and it opens: with the length stored, where the new task of the row's path and size then stands |
| Answers.ResumedFromTask | src/clogic.cpp:903-919 | a resumption with a task is always answered, with the length stored, where the task then stands, or with -1 if the descriptor does not work |
| TransferProgress.UploadCanBeFinished | src/clogic.cpp:268-919 | in every state of every run, a client whose upload is unfinished can finish it by asking where to go on and sending the rest: then the file is whole, the row finished and every block answered |
| Upload.BlockOnlyAt | src/clogic.cpp:268-336 | a block of one upload changes no other file, row, task or descriptor, whatever else the tasks are for |
| Upload.LateBlockKeepsSession | src/clogic.cpp:288-325 | a late block that is harmless keeps the upload in step in every phase of the client |
| Upload.LateResumeKeepsSession | src/clogic.cpp:866-919 | so does a late resume request |
| TransferRuns.StartLeavesUp | src/clogic.cpp:177-267 | the start of an upload keeps every other upload in step, and gets a path and a row of its own |
| TransferRuns.StartLeavesDown | src/clogic.cpp:177-267 | the start of an upload keeps every download in step, also one of the truncated file, if that one has nothing yet |
| LateDownloads.StartSafeIff | src/clogic.cpp:214-229 | an accepted upload leaves all downloads of its path safe in all later runs if and only if none of them has accepted anything or has a block on its way |
| TransferRuns.OtherHandlers | src/clogic.cpp:553-1150 | a new folder, a share, a received share or a deletion keeps the tables sound, changes no file row that stays and adds none of a plain file |
| ResumeSize.SafeIffSizeKept | src/clogic.cpp:241-251 | an upload is safe in all runs if and only if the old row it is recorded under, if any, is not of a smaller size |
| ResumeSize.FinishedIffWhole | src/clogic.cpp:298-303 | in every run, an upload of a non-empty source whose row has the right size is marked finished exactly when the file is the whole source, not before and not later, unless a late block for another place completed the file by coincidence in a short write |
| ResumeSize.EndsInPartIsUnfinished | src/clogic.cpp:294-297 | in that case the file is whole and the row unfinished |
| ResumeSize.BlocksCutShort | src/clogic.cpp:876-910 | with a task that asks for less than the source, the client's blocks lead to a finished row over an incomplete file |
| ResumeSize.HonestSizesKept | src/clogic.cpp:241-251 | in a run where equal md5 values come with equal sizes, no upload ever meets an old row of a smaller size |
| ResumeSize.NoNegativeSizes | src/clogic.cpp:231-240 | no run records a plain file of a negative size, which is what `ResumeSize.SafeIffSizeKept` asks of the tables |
| LateRequests.LateBlockSafeIff | src/clogic.cpp:288-325 | a block that the client has given up, processed in whatever phase the client is, leaves the file a prefix of the source in all later runs if and only if nothing is written, or the bytes written belong at the task's position and the client must ask again anyway, the write is short, or it completes the upload |
| LateRequests.LateResumeSafeIff | src/clogic.cpp:866-919 | a resume request that the client has given up does so if and only if the client must ask again anyway, there is nothing to resume, the file ends where the client is, or an empty block of the client is about to complete the upload |
| LateRequests.JustGivenUpIsHarmless | src/clogic.cpp:268-336 | a block that the client has just given up, for whatever reason, is harmless |
| LateRequests.GivenUpBlockSpoils | src/clogic.cpp:866-919 | the run: a block is on its way, the client asks and is told where to go on, and then the block arrives; some continuation leaves a file that is no prefix of the source |
| LateRequests.GivenUpResumeSpoils | src/clogic.cpp:866-919 | the run: the client asks twice, is told, sends a block that is written in part, and then its first resume request is processed; some continuation spoils the file |
| LateRequests.LeftBlockSpoilsUnless | src/clogic.cpp:288-297 | a block of an upload that another one of the same path has truncated spoils the new file unless the new source begins with zeros up to the old position and then with that block |
| HandOver.PrintedExactly | src/clogic.cpp:303-314 | in every run a name is on the transfer list as often as the finished row of its file has been deleted, and once more if the file is finished now |
| HandOver.PrintedAgainIff | src/clogic.cpp:303-314 | a name that is printed was on the list before if and only if its finished row has been deleted before |
| HandOver.FinishedIsPrinted | src/clogic.cpp:298-316 | in every run an upload's row says finished exactly when its file has been printed since the last deletion, and then the file is whole |
| HandOver.UploadedAgainIsPrintedAgain | src/clogic.cpp:303-314 | a run that prints a name twice |
| HandOver.FinishedFilesAreTransferred | transferServer/tranServer.cc:247-269 | whatever the batching of the list and the timing of the scans, the watcher uploads the names printed in a run, each once, in order of first print; it uploads all prints if and only if no file was finished again after a deletion |
| TransferRuns.DownloadSafety | src/clogic.cpp:466-551 | in the same runs, for finished files and for files still being uploaded, with refused and lost blocks, short reads, read errors, harmless late requests, restarts and resumptions: the accepted bytes are the beginning of the file, and the descriptor's offset is `pos` plus the outstanding block |
| LateDownloads.LateAskSafeIff | src/clogic.cpp:923-988 | a resume request that the client has given up, processed in any phase, leaves the download safe in all later runs if and only if the client must ask again anyway, nothing is resumed, or the request leaves the task where the client takes it to be |
| LateDownloads.LateAnswerSafeIff | src/clogic.cpp:497-551 | an answer that was given up does so if and only if, unless the client must ask again, a positive one erases the task or moves and reads nothing, and a negative one reads again just what it takes back |
| LateDownloads.LateHeaderSafeIff | src/clogic.cpp:466-496 | a header answer that was given up does so if and only if it reads nothing or the client must ask again |
| LateDownloads.GivenUpAskCorruptsUnless | src/clogic.cpp:497-551 | the run: the client has accepted a block, and an old resume request is processed before its answer; what it gets next is right if and only if the file holds the same bytes at both places |
| TransferRuns.ErasedIffWhole | src/clogic.cpp:522-533 | an answer erases the task and closes its descriptor exactly when it is positive and the client has as many bytes as the header promised, which for a header with the file's size means the whole file |
| Download.AnswerKeepsSession | src/clogic.cpp:497-551 | a positive or negative answer leaves task, client and the next block in step |
| Download.ContinueKeepsSession | src/clogic.cpp:923-988 | a resume request continues exactly behind what the client has accepted |
| Download.TakeKeepsSession | src/clogic.cpp:497-551 | accepting a block extends the accepted beginning of the file, refusing it does not |
| Answers.RequestAnswer | src/clogic.cpp:396-465 | a download request is answered if and only if the user has the file in that directory and it opens or was fetched: with timestamp, id, directory, the name in the first row found, md5 value and size, and a task at the beginning |
| Answers.HeaderAnswer | src/clogic.cpp:466-496 | a header answer gets the first bytes, be they none, if and only if the task's descriptor works and `read` does not fail |
| Answers.ContentAnswer | src/clogic.cpp:497-551 | an accepted block is answered with the bytes behind it unless it was the last one, there are none, or `read` fails; a refused one is sent again |
| Answers.DownloadResumedFromRow | src/clogic.cpp:923-988 | a resumption without a task is answered if and only if the user has the file in that directory and it opens: with as many of its bytes from the position on as are asked for and there |
| Answers.DownloadResumedFromTask | src/clogic.cpp:973-987 | a resumption with a task is always answered, with the same bytes, or with the length -1 if the descriptor does not work or `read` fails |
| TransferProgress.DownloadCanBeCompleted | src/clogic.cpp:923-988 | in every state of every run, a client whose file is there can get all of it by asking for what it has not got |
| Download.StepKeepsSession | src/clogic.cpp:396-551 | every step of a download keeps its task, its client and the block between them in step |
| Download.FetchedIsSentIff | src/clogic.cpp:434-446 | a file that is fetched from the distributed store is announced in any case; its first block is sent if and only if the second open succeeds on a path that exists |
| Download.UnreadableSendsNothing | src/clogic.cpp:466-551 | a task without a working descriptor stays like that until it is erased, and gives the client no byte, whatever is asked |
| DownloadLength.AnswerAdvances | src/clogic.cpp:520-550 | the answer to a full block lowers what is left by the block and sends the next one, or ends the task |
| DownloadLength.BlocksAddUp | src/clogic.cpp:485-550 | the blocks from any position on are as many as the rest of the file needs, and concatenate to it |
| DownloadLength.FailureFreeDownload | src/clogic.cpp:485-495 | without failures a file is sent in max(1, ceil(size/40960)) blocks that concatenate to it |
| Isolation.HandlersIsolated | src/clogic.cpp:279 | a handler called for one user and timestamp leaves task and descriptor of every other pair as they are |
| TransferRuns.UpLeavesDown | src/clogic.cpp:268-336 | a step of an upload keeps every download in step, also one of the very file that is being uploaded |
| TransferHandlers.CLogic.HandleUpFileRq | src/clogic.cpp:167-267 | the handler in place does to tables, files, descriptors and task map what `Upload.Started` says, and replies accordingly |
| TransferHandlers.CLogic.FileContentRq | src/clogic.cpp:268-336 | the handler in place, with its seek back and its transfer task, does what `Upload.BlockReceived` says |
| TransferHandlers.CLogic.ContinueUploadRq | src/clogic.cpp:866-921 | the handler in place does what `Upload.Continued` says |
| TransferHandlers.CLogic.DownloadFileRq | src/clogic.cpp:396-465 | the handler in place, with the fetch from the distributed store, does what `Download.Requested` says |
| TransferHandlers.CLogic.FileHeaderRs | src/clogic.cpp:466-496 | the handler in place does what `Download.HeaderAnswered` says |
| TransferHandlers.CLogic.FileContentRs | src/clogic.cpp:497-551 | the handler in place does what `Download.ContentAnswered` says |
| TransferHandlers.CLogic.ContinueDownloadRq | src/clogic.cpp:923-988 | the handler in place does what `Download.Continued` says |
| TransferHandlers.CLogic.HandOver | src/clogic.cpp:309-316 | a finished upload adds one line with its path to the list file |
| FolderTree.PreOrderIsUnder | src/clogic.cpp:845-863 | on a well-formed tree the recursive walk meets exactly the user's rows whose directory starts with the root, each once |
| FolderTree.ReachesIffPrefix | src/clogic.cpp:845 | on a well-formed tree a directory is reached by the recursion exactly if its path starts with the root |
| FolderTree.PreOrderInside | src/clogic.cpp:1160-1184 | the walk meets only rows of the user that lie in directories it reaches |
| ShareCopy.GetShareByFolder | src/clogic.cpp:1152-1185 | the recursive loop over the live tables does what `ShareCopy.CopyFolder` says |
| ShareCopy.EndsIff | src/clogic.cpp:1152-1185 | a copy ends if and only if it does not go to a directory of the same user that the copied folder leads to |
| ShareCopy.NeverEnds | src/clogic.cpp:1152-1185 | such a copy goes deeper than any bound |
| ShareCopy.CopyIsImage | src/clogic.cpp:1152-1185 | when source and target are apart, the rows inserted while walking are the images of the rows of the walk, in its order |
| ShareCopy.ShareCopyIsSubtree | src/clogic.cpp:1152-1185 | the copy appends the folder row and, as a multiset, every row below `fromdir+name/` with that prefix replaced by `dir+name/`, same ids and names; no other row changes |
| ShareCopy.ReceiverSeesSubtree | src/clogic.cpp:1152-1185 | a receiver with nothing below the new folder has the sender's tree there afterwards |
| ShareCopy.ApartForOthers | src/clogic.cpp:764-777 | a share received from another user is always apart from its source |
| ShareCopy.ApartWhenDisjoint | src/clogic.cpp:1156-1159 | so is one where neither folder path is a prefix of the other |
| ShareCopy.ApartWhenDeeper | src/clogic.cpp:1156-1159 | so is one to a deeper directory that the copied folder does not lead to |
| ShareCopy.ApartWhenAbove | src/clogic.cpp:1156-1159 | so is one to a directory above the folder, unless the folder leads to a copy of the way from the new folder to it |
| ShareCopy.WhichAreApart | src/clogic.cpp:1152-1185 | these are all the cases: a copy is apart, or does not end, or is in place, or goes up along a way that the folder repeats |
| CopyInPlace.CopyInPlaceDoubles | src/clogic.cpp:1152-1185 | a folder copied to the directory it lies in, although source and target are the same: the copy ends and appends the folder row and, as a multiset, every row below the folder once more |
| DeleteTree.DeleteFile | src/clogic.cpp:1084-1105 | the row goes; file row and disk file go if nobody refers to the file any more |
| DeleteTree.FileDeletedIsPrune | src/clogic.cpp:1094-1104 | deleting a row that may already be gone removes a file row and its disk file with the last reference and only then |
| DeleteTree.DeleteFolder | src/clogic.cpp:1107-1150 | the recursive loop over the changing tables removes the folder row and the rows of all directories the folder leads to, with the files that lose their last reference |
| DeleteTree.DeleteOneItem | src/clogic.cpp:1057-1082 | one item is deleted as file or folder, an unknown one changes nothing |
| DeleteTree.DeleteFileRq | src/clogic.cpp:1035-1055 | the items of a request are deleted one after another |
| DeleteTree.DeleteFolderExact | src/clogic.cpp:1107-1150 | on a well-formed tree exactly the user's folder row and the rows below `dir+name/` go, all others stay in order |
| DeleteTree.PruneIsSafe | src/clogic.cpp:1094-1104 | a file row or disk file goes only when no row refers to it any more |
| DeleteTree.OtherUsersUntouched | src/clogic.cpp:1088 | other users keep all their rows in order |
| TableAnswers.PruneExact | src/clogic.cpp:1088-1104 | a deletion is exact: a file row goes if and only if it is of a plain file that loses its last reference, a path if and only if a plain file was there and such a row goes |
| TableAnswers.FileDeletionExact | src/clogic.cpp:1057-1105 | deleting a plain file takes the user's rows for it in that directory, whoever else refers to it, and no others |
| TableAnswers.FolderDeletionExact | src/clogic.cpp:1057-1150 | deleting a folder takes its row and what lies below, under the name of the first row found |
| FolderDownload.SelectMysql | src/Mysql.cpp:18-41 | a result set is appended row by row and column by column |
| FolderDownload.PopRow | src/clogic.cpp:828-833 | six pops give the fields of the row back and leave the list at the next row |
| FolderDownload.DownloadFile | src/clogic.cpp:990-1033 | a file that opens gets header, timestamp and task; one that does not costs nothing; the list is left at the next row either way |
| FolderDownload.DownloadFolder | src/clogic.cpp:826-864 | consuming flat lists recursively sends what walking the rows in pre-order sends |
| FolderDownload.DownloadFolderRq | src/clogic.cpp:798-824 | the request serves the first row found, as a folder |
| FolderDownload.HeadersInOrder | src/clogic.cpp:837-862 | a walk sends one header per row that is shown, in order, numbered without gaps |
| FolderDownload.HeaderAt | src/clogic.cpp:837-838 | the i-th header of a walk carries the timestamp base+i |
| FolderDownload.EveryHeaderHasItsTask | src/clogic.cpp:1017-1020 | every announced file has its own task under its key at the end, whatever failed to open |
| FolderDownload.OtherTasksKept | src/clogic.cpp:1017-1020 | tasks under keys that the walk does not hand out stay |
| FolderDownload.FolderDownloadExact | src/clogic.cpp:826-864 | on a well-formed tree every row below the folder is met once, and those that are folders or open are announced in pre-order |
| FolderRuns.FolderDownloadIsRun | src/clogic.cpp:826-864 | the tasks and clients of a folder download are those of a run of single download requests, one for every file announced, so what holds of downloads holds of them |
| Storage.RecordUpload | src/clogic.cpp:176-257 | quick upload, refused open and new upload, as `Storage.Uploaded` says |
| Storage.AddFolderRq | src/clogic.cpp:553-620 | an existing directory is reused, a failing mkdir changes nothing |
| Storage.UploadIsListed | src/clogic.cpp:191-257 | an upload adds one row of the requested name for a file of the requested md5 to the user's directory, finished exactly if it was a quick upload, and changes no other listing |
| TableAnswers.UploadAnswer | src/clogic.cpp:176-267 | an upload is quick if and only if a finished file of its md5 value exists, and otherwise accepted if and only if its path opens; which row is added for which file, and what is recorded |
| TableAnswers.FolderAnswer | src/clogic.cpp:553-620 | a new folder succeeds if and only if its directory is there already, or nothing is at the path and mkdir succeeds; then the directory is there and recorded |
| Storage.FolderIsListed | src/clogic.cpp:586-619 | a new folder is listed last where it was made, under its name and disk path; it is listed as a folder if and only if no row of a plain file is at that path; a failure changes nothing |
| Storage.RunKeepsFilesFirst | src/clogic.cpp:586-619 | in every run rows of plain files come before folder rows of the same path |
| StrayRows.FolderBecomesFile | src/clogic.cpp:586-619 | a run after which a new folder is listed as an unfinished plain file |
| Storage.NeverTruncatesFinished | src/clogic.cpp:177-229 | an upload that is not answered as quick opens a path that no finished row has |
| Storage.AcceptedId | src/clogic.cpp:241-251 | an accepted upload is recorded under the oldest row at its path, which is an unfinished file |
| Storage.ReferencedPathsDistinct | src/clogic.cpp:1095-1104 | different files that rows refer to have different disk paths |
| Storage.ShareFileRq | src/clogic.cpp:621-658 | the link is the first one drawn that no row carries, it has nine digits, and exactly the named rows get it |
| TableAnswers.LinksDrawn | src/clogic.cpp:631-634 | exactly the numbers of nine digits without a leading zero can be drawn |
| Storage.LookupAfterShare | src/clogic.cpp:709-738 | right after sharing, the link leads to the rows named and to no others |
| TableAnswers.SharedExactly | src/clogic.cpp:709-720 | a share gives its link to the rows it names and leaves all other rows with any links of their own |
| Storage.ShareKeepsLinks | src/clogic.cpp:709-720 | all rows with one link keep one owner and one directory |
| Storage.GetShareRq | src/clogic.cpp:725-783 | every linked row is received as file or folder; an unknown link is answered with 0 and with 1 |
| TableAnswers.ReceivedExactly | src/clogic.cpp:725-796 | whatever a link leads to, the receiver gets it in order: one row for a plain file, with the receiver's id, the directory and time of the request and the id and name of the sender's row; the image of a folder; nothing else |
| TableAnswers.ReceivedIsListed | src/clogic.cpp:725-796 | the receiver's directory then lists one more row for every linked row, in order, and all directories of other users list what they did |
| TableAnswers.SharedIsReceived | src/clogic.cpp:709-796 | sharing any rows of a directory and entering the link as another user adds, in order, a row for every row named to the directory chosen |
| Storage.ShareThenReceive | src/clogic.cpp:709-783 | sharing one folder and entering its link as another user gives that user the sender's tree below the new folder and nothing else there |
| Storage.RunKeepsInvs | src/clogic.cpp:177-1150 | every run of uploads, quick uploads, new folders, shares, received shares, deletions and restarts keeps the table invariant and the link invariant |
| Storage.DeduplicationSafe | src/clogic.cpp:1084-1105 | in every run each user row has its file row with an existing disk path, and different referenced files have different paths |
| Storage.UnlinkOnlyUnreferenced | src/clogic.cpp:1099-1104 | in every run a deletion unlinks a path only if no remaining row's file is stored there |
| ThreadPool.ThreadBounds | src/Thread_pool.cpp:109-205 | in every reachable state: min <= alive <= max as long as no creation failed, alive is the number of workers plus failed creations, 0 <= busy <= workers, 0 <= wait <= 10 |
| ThreadPool.OvercountBound | src/Thread_pool.cpp:170-190 | however many creations fail, and even if exited threads were found dead, alive stays within max + min - 1, and within max if min is at most 1 or equals max |
| ThreadPoolOvercount.PeakIsExact | src/Thread_pool.cpp:155-190 | for every pool, the counter never exceeds `Peak` in a run of the code, where no exited thread is found dead, and some run reaches it |
| ThreadPoolOvercount.OvercountIff | src/Thread_pool.cpp:170-190 | some such run counts more than thread_max if and only if 2 <= min < max and the queue has room, the pool (4, 2, 1) excepted |
| ThreadPool.RingIndices | src/Thread_pool.cpp:95-99 | front is (rear + cur) mod queue_max, and all three stay in range |
| ThreadPool.FifoRefinement | src/Thread_pool.cpp:79-151 | the tasks taken followed by the contents of the ring are the tasks added |
| ThreadPool.EveryTaskOnce | src/Thread_pool.cpp:79-151 | every task added is exactly one of pending, with one worker, finished |
| ThreadPool.TurnTakesOrRetires | src/Thread_pool.cpp:116-144 | a worker with the lock retires if and only if there is a task, retiring is asked for and the pool is above its minimum; otherwise it takes the oldest task, or waits if there is none |
| ThreadPool.ProduceAddsIff | src/Thread_pool.cpp:79-106 | a task gets into the ring if and only if there is room |
| ThreadPoolProgress.GrowsIff | src/Thread_pool.cpp:163-173 | the manager creates workers if and only if it saw fewer than the maximum, and more tasks than idle workers or at least four of five busy |
| ThreadPoolProgress.ShrinksIff | src/Thread_pool.cpp:192-197 | it asks ten workers to retire if and only if it saw more than the minimum and less than a third of them busy |
| ThreadPoolProgress.EverythingCanBeRun | src/Thread_pool.cpp:109-151 | from every reachable state in which fewer creations have failed than there are initial workers, some continuation runs and finishes every task added |
| ThreadPoolProgress.DiesIff | src/Thread_pool.cpp:130-190 | some run leaves a task that no continuation ever takes, if and only if the queue has room and min is 0 or below max |
| ThreadPool.ApplyKeepsInv | src/Thread_pool.cpp:79-205 | every lock region of producers, workers and manager keeps ring, counters and task accounting |
| ThreadPool.ThreadPool.PoolCreate | src/Thread_pool.cpp:53-75 | it succeeds exactly if all initial workers and the manager can be created, and leaves the pool that all runs start from; otherwise it stops at the first failure, with the workers created before it counted |
| ThreadPool.ThreadPool.ProducerAdd | src/Thread_pool.cpp:79-106 | the locked region in place is the step `Produce`; it blocks exactly on a full queue |
| ThreadPool.ThreadPool.CustomTurn | src/Thread_pool.cpp:116-144 | the locked region in place is the step `Turn`: on the fields, it takes the oldest task, retires, or waits, each exactly when it should |
| ThreadPool.ThreadPool.CustomDone | src/Thread_pool.cpp:147-149 | the locked region in place is the step `Finish` |
| ThreadPool.ThreadPool.ManagerStep | src/Thread_pool.cpp:155-205 | each part of the manager's loop in place is the step `Manage` |
| Framing.LengthRoundTrip | src/block_epoll_net.cpp:244 | the four length bytes are read back as the length |
| Framing.LittleEndian | src/block_epoll_net.cpp:244 | the lowest byte of the length goes first, and a length is taken for a negative one exactly if the top bit of its last byte is set |
| Framing.Socket.SendData | src/block_epoll_net.cpp:226-251 | length and payload go out as one frame |
| Framing.ReceivePayload | src/block_epoll_net.cpp:167-179 | the loop fills the buffer with the bytes received, offset plus remaining size staying the packet size |
| Framing.ReceivePacket | src/block_epoll_net.cpp:158-182 | one packet is taken off the stream, or the connection is found over, or a negative length ends the process; the length may come short |
| Framing.ShortOnlyAtEnd | src/block_epoll_net.cpp:171-179 | a packet is short only if the stream ended or a read failed, and a failed read with bytes left makes it short |
| Framing.FrameReceivedIff | src/block_epoll_net.cpp:158-182 | exactly the payload sent is received, with the rest left unread, if and only if its four length bytes come in one read |
| Framing.SessionRoundTrip | src/block_epoll_net.cpp:158-182 | for every chunking of the reads of payloads, receiving what was sent for a list of payloads gives that list |
| Framing.CutSession | src/block_epoll_net.cpp:158-181 | a connection that ends inside a packet delivers the received prefix of the payload last, or an empty packet if it ended inside the length |
| EventLoop.MyEvent.EventAdd | include/block_epoll_net.h:111-129 | the record is watched and armed with the new mask, added or modified as its status says |
| EventLoop.MyEvent.EventDel | include/block_epoll_net.h:131-140 | the record is no longer watched, and its status agrees |
| EventLoop.Server.AcceptEvent | src/block_epoll_net.cpp:106-140 | a new connection is watched once and in the map |
| EventLoop.Server.RecvTask | src/block_epoll_net.cpp:151-200 | one packet is queued and the record armed again with its mask; or nothing is queued and the connection is gone from epoll, descriptors and map; or a negative length ends the process |
| LockedMap.MyMap.Find | include/block_epoll_net.h:52-62 | a missing key is reported and leaves the caller's value |
| OneShot.OneClaim | src/block_epoll_net.cpp:90-200 | in every reachable state a record is claimed at most once among epoll, reported events, queue and running tasks, and exactly once if and only if it is live and no report of it has been passed over; an armed one has no recv_task |
| OneShot.StreamOrder | src/block_epoll_net.cpp:180-187 | in every reachable state the packets queued for a connection, then the one in a worker's hands, then the unread ones are the packets sent |
| OneShot.DealtUnderOwnFd | src/block_epoll_net.cpp:180-183 | in every run each packet is queued under the descriptor that its connection was accepted with |
| OneShot.FdIsAccepted | src/block_epoll_net.cpp:106-140 | that descriptor is the one that the accept which made the record returned |
| OneShotProgress.EverythingCanBeDelivered | src/block_epoll_net.cpp:145-187 | in every reachable state, if the record of a connection is on its way between epoll and a recv_task that has not failed, some continuation delivers all that the peer has sent |
| OneShotProgress.FailedIsTakenApart | src/block_epoll_net.cpp:158-198 | a recv_task whose read fails, or finds the end, leaves no trace of its connection and queues nothing |
| RingPipeline.StreamThroughRing | src/Thread_pool.cpp:79-151 | with the pipeline on the pool: the ring holds exactly the queued tasks, and for every connection the packets of the tasks taken from it, of those in it, in a worker's hands and unread are the packets sent |
| SocketMap.AcceptSafeIff | src/block_epoll_net.cpp:192-197 | an accept is safe for the map if and only if no recv_task is about to erase the entry of its descriptor |
| SocketMap.CarefulKeepsEntries | src/block_epoll_net.cpp:129-135 | as long as all accepts are like that, every open socket has its map entry |
| SocketMap.ReuseLosesMapEntry | src/block_epoll_net.cpp:193-196 | and a run exists in which one is lost |
| TransferList.FileTransferTask.Execute | include/Transfer/FileTransferTask.h:35-47 | everything pending is printed in order, and nothing stays pending |
| TransferList.FileWriter.WriteFd | include/Transfer/FileWriter.h:22-35 | the resolved name is appended, or the number under its own tag |
| TransferList.ListRoundTripIff | transferServer/tranServer.cc:247-279 | reading back and stripping what was printed yields the names if and only if none holds a newline |
| TransferList.TransferListWatcher.ScanAndUpload | transferServer/tranServer.cc:247-269 | a scan calls uploadFile for the lines not yet uploaded and remembers those that returned |
| TransferList.ExactlyOnce | transferServer/tranServer.cc:255-263 | when uploadFile does not throw, a run of scans makes one call for every distinct non-empty line seen, in the order of first sight |
| TransferList.AtMostOneReturn | transferServer/tranServer.cc:255-266 | in every run, with any throws, no line is uploaded again after a call for it returned |
| TransferList.EveryLineIsTried | transferServer/tranServer.cc:255-266 | every scan makes a call for every line that has not been uploaded, and remembers exactly the lines with a call that returned, so one that threw is tried again |
| TransferList.EveryFinishedNameOnce | transferServer/tranServer.cc:247-279 | for a growing list the paths uploaded are the names appended, without repetitions, in order |
| Text.NumberRoundTrip | src/clogic.cpp:827 | stoi undoes the decimal form of a column |

## Left out

- Copying a folder upwards along a way that the folder repeats (the last case of `ShareCopy.WhichAreApart`): such a copy ends (`ShareCopy.EndsIff`), but it reads some of the rows that it inserts, and what it then inserts is not described.
- A handler is atomic: two handlers whose SQL statements interleave are not modelled.
- Deletion of a file while it is being uploaded or downloaded: an unlinked file that is still open is not modelled. All other deletions are part of the runs.
- ShareCopy.GetShareByFolder: stated for copies that end; when they do is `ShareCopy.EndsIff`.
- Storage.GetShareRq: stated for copies that end, likewise.
- Storage.ShareFileRq: stated for draws among which a free link occurs; otherwise the loop draws for ever.
- ThreadPool.ThreadPool.PoolCreate: for thread_min at most thread_max, which the server does not check.
- Shutdown of the pool: `pool_destroy` has no definition, and nothing ever clears the running flag.
- Lost wake-ups of the pool: the progress results say that workers can run every task, not that the condition variables wake one; a retiring worker consumes a wake-up.
- `send` that sends less than it was given, and 32-bit overflow of sizes and of `++timestamp`.
- The accept of a connection is one step of the pipeline model, although the record is armed before the map entry is made.
- SQL failures, the triggers behind `f_count`, `strcpy` into fixed buffers, struct layout.
- Registration and login, the listings `GetFileInfoRq` and `MyShareRq`, and log files: single-branch code.
- `FileTransferClient`: its server is not part of this repository; what its calls return is a parameter.
- `MQWriter`, `NoOpWriter` and the duplicate classes of the test directory.
