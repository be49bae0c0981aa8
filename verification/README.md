# Models of the desktop runtime's protocols and parsers

This project models, in Dafny, the parts of the desktop tree whose correctness is hardest
to see from the code, and one text filter of the assurance tooling, and proves what they
are for. `dafny verify dfyconfig.toml` checks all of it.

| files | what they model |
|---|---|
| `Slots`, `SlotClaims`, `SlotInvariant`, `SlotSafety`, `SlotOutcomes`, `SlotEviction`, `SlotRefusal`, `SlotProgress`, `SlotWitness` | how streaming requests and evictions share the slots of local models |
| `Transfer`, `TransferCorrect`, `TransferSafety`, `TransferBounds`, `TransferRetries`, `TransferEndings`, `Shards`, `Downloads` | the resumable download of one file, and of the shards of one model |
| `Ledger` | the records that decide whether a download may start |
| `Text`, `Scanner`, `Json`, `Candidates`, `CandidateOrder`, `TriedOrder`, `LostObjects` | finding the summary object in a compaction response |
| `MiddleOut` | removing tool responses until a history fits the summarizer |
| `CodeFence` | fencing code so that it cannot close its fence |
| `AgentMachine`, `AgentEffects` | the agent's step loop under cancellation |
| `TokenBucket` | the sliding-window rate limit of the OIDC proxy |
| `LeanComments`, `LeanLiterals` | blanking out Lean comments |
| `ChatText`, `MediaMarkers`, `MarkerAgreement` | images as markers in the local chat |
| `Wrappers`, `Numbers`, `Sequences` | an option type, a minimum, and sequences of sequences |

**Form.** Loops and objects that the source updates in place are methods and classes over
fields and arrays, each proved equal to a function; the lemmas are about that function.
The slot protocol is a concurrent program, so it is a state machine: a state holds the
slots, the owner of every lock and the program counter of every task, a step moves one
task from one lock operation, await point or critical section to the next, and a run is
any interleaving of steps and arrivals. `SlotClaims` states the lock discipline without
program counters; `SlotInvariant` shows that every step is one of its moves. `SlotOutcomes`
names the move behind every step, with what the environment answered, and shows that every
run has such moves.

**Environment.** The server is a function from the request number and offset to a reply.
`TransferCorrect.Compliant` is all that is assumed of it, by RFC 9110 sections 14.2, 14.4,
15.3.1 and 15.3.7: 200 carries the whole file, and 206 answers a request with a Range and
carries one part of what was asked for, named in Content-Range, with the complete length
if it is known. 416 (15.5.17) and error statuses are unconstrained, and so is the size
from HEAD in `TransferSafety`. Beyond the RFC it is assumed that success is 200 or 206 and
that the remote file stays the same between requests, which the source does not check.
Disk operations may fail whenever they are tried. `notify_waiters` wakes every waiter that
already exists, as the Tokio documentation says. Loads and generations end, and receivers
drain, because each is one step. Agent operations and the model call are uninterpreted.
Storage operations of the token bucket are atomic with respect to other requests. Base64
decoding is a parameter.

## What the proofs brought up

- A server may answer a Range with less than was asked for (RFC 9110 section 15.3.7). The
  download never compares Content-Range with its offset, nor the size of the file with the
  size it knows, and promotes the truncated file (lines 653-656 of the download manager,
  `TransferCorrect.ShortRangeTruncates`). `TransferCorrect.PromotedExactly` is the exact
  condition. No file of more than two bytes that is not there already is safe from every
  compliant server (`TransferSafety.SafeFromAnyServerExactly`).
- A partial file of the size that HEAD reports is promoted on its size alone (lines
  454-455), whatever the status of the HEAD answer, and a shorter one is only ever appended
  to. `TransferSafety.SafeExactly` is the exact condition under which that is harmless.
- A 416 answer to a request without a Range is retried without counting, waiting or
  giving up. The loop ends exactly when that happens finitely often
  (`TransferBounds.EndsExactly`).
- A failure to create directories blocks its model id until a caller writes its record
  through `set_progress` or `update_progress` (`Ledger.DirectoryFailureOrphans`,
  `Ledger.OrphanFreedExactly`). Reservations of downloading records are in the same
  position (`Ledger.ReservationOrphans`), and their owners do write
  (desktop/crates/goose-local-inference/src/hf_models.rs, 2246-2270; management.rs,
  745-770). While a task is under way such a write opens the way to a second one exactly
  when it frees the record; a write that reports progress does not
  (`Ledger.SecondTaskExactly`).
- The Lean comment stripper takes a quote behind an escaped backslash for an escaped quote
  (line 462 of the linter), stays in the string, and copies the comment that follows
  (`LeanLiterals.CommentBehindBackslashStays`). The stripped text is searched for
  declarations (line 230), so a theorem that stands only in such a comment counts as
  declared. `LeanLiterals.SameTokensExactly` is the exact condition.
- A deletion that fails after a reset leaves a partial file that the counter no longer
  counts (`Shards.FailedDeletionIsNotCounted`). `Shards.AccountedExactly` is the exact
  condition, and `Shards.LoopHeadAccounted` the balance with that correction.
- The middle-out removal at 100 percent keeps the last tool response when their number is
  odd (`MiddleOut.BlockIsExact`), although the final error message says that all were
  removed. A single tool response stays at every percentage, and all five attempts send the
  same history (`MiddleOut.NothingRemovedExactly`).
- A fenced object whose own strings quote a terminator is not offered when no terminator
  precedes its fence (`LostObjects.UnprecededObjectOffered`).
- A code that ends in a carriage return, trailing newlines aside, is not read back from
  its fence unchanged (`CodeFence.ReadBackIsCode`).
- The token bucket answers by its rule exactly as long as the clock does not go back behind
  the last pruning (`TokenBucket.PrunedListServesExactly`).
- The Loading branch under the cold-load lock is dead code
  (`SlotSafety.RecheckNeverWaits`), and the unload that notifies nobody is harmless
  (`SlotClaims.UnloadSound`).

## Model

| member | source | states |
|---|---|---|
| `SlotSafety.AtMostOneModel` | desktop/crates/goose-local-inference/src/lib.rs:726-833 | In every state of every interleaving of requests and evictions at most one slot is Loaded, and it holds the model of its own key |
| `SlotSafety.LoadRunsAlone` | desktop/crates/goose-local-inference/src/lib.rs:765-787 | While the backend loads a model every other slot is Empty, slots created after the snapshot of other slots included |
| `SlotSafety.LoadingIffBringingIn` | desktop/crates/goose-local-inference/src/lib.rs:751-830 | A slot is Loading if and only if some request for it stands between marking and resolving it, and every such request holds the cold-load lock |
| `SlotSafety.AtMostOneLoading` | desktop/crates/goose-local-inference/src/lib.rs:738-763 | At most one slot is Loading, and none is while the cold-load lock is free |
| `SlotSafety.RecheckNeverWaits` | desktop/crates/goose-local-inference/src/lib.rs:740-750 | The Loading branch of the re-check under the cold-load lock is never reached |
| `SlotSafety.WaiterHasLoader` | desktop/crates/goose-local-inference/src/lib.rs:730-734 | No wake-up is lost: a request waiting un-notified waits for a slot that is Loading and that another request is bound to resolve, although the unload at line 770 notifies nobody |
| `SlotSafety.SlotHoldersAskForNothing` | desktop/crates/goose-local-inference/src/lib.rs:735-739 | No lock cycle: whoever holds a slot lock asks for no other lock, waits for nobody and can move |
| `SlotSafety.AdvanceTouchesHeldSlots` | desktop/crates/goose-local-inference/src/lib.rs:229-235 | A step changes the state of a slot only if its task holds that slot's lock |
| `SlotSafety.GenerationIsProtected` | desktop/crates/goose-local-inference/src/lib.rs:851-880 | Generation runs only on the request's own loaded model under its slot lock, and no step of any other task unloads it before generation returns |
| `SlotSafety.OutcomesAreEarned` | desktop/crates/goose-local-inference/src/lib.rs:851-891 | A request ends with success only if its generation ran earlier in the run, and with the not-loaded error only if it found its slot without a model under the slot lock |
| `SlotOutcomes.FailedLoadAborts` | desktop/crates/goose-local-inference/src/lib.rs:789-806 | Once the backend has failed to load a request's model, the request is on its way out at every later moment: it never stores a model, never generates, and ends with that error |
| `SlotOutcomes.GoodLoadServes` | desktop/crates/goose-local-inference/src/lib.rs:779-833 | Once its model is loaded a request never ends as aborted |
| `SlotOutcomes.FailedSendAborts` | desktop/crates/goose-local-inference/src/lib.rs:754-763 | Once its notice could not be sent a request loads nothing, never generates, and ends as disconnected |
| `SlotOutcomes.OutcomeIsTheAnswer` | desktop/crates/goose-local-inference/src/lib.rs:754-833 | A finished request ends with the load error if and only if the backend answered it with a failure, and as disconnected if and only if its notice could not be sent |
| `SlotOutcomes.ResolvingWakesAll` | desktop/crates/goose-local-inference/src/lib.rs:790-828 | Giving up a load empties the slot, storing a model fills it with its own model, and either leaves nobody waiting un-notified |
| `SlotOutcomes.WarmRequestGoesStraightOn` | desktop/crates/goose-local-inference/src/lib.rs:727-729 | A request that finds its model loaded goes on to generate without the cold-load lock |
| `SlotOutcomes.LooksBeforeItLeaves` | desktop/crates/goose-local-inference/src/lib.rs:727-738 | A request asks for the cold-load lock only after it found its slot Empty under the slot lock, and waits only after it found it Loading |
| `SlotEviction.EvictionListsItsModel` | desktop/crates/goose-local-inference/src/lib.rs:219-225 | An eviction lists exactly the slots of its model id |
| `SlotEviction.EvictionVisitsItsModel` | desktop/crates/goose-local-inference/src/lib.rs:227-236 | A finished eviction has visited every slot of its model id that existed when it came, left none of them loaded behind it, and reports an eviction if and only if it found one loaded |
| `SlotEviction.EvictionEmptiesOnlyItsModel` | desktop/crates/goose-local-inference/src/lib.rs:228-235 | An eviction changes a slot only from loaded to empty, and only one of its model id |
| `SlotRefusal.RefusedMeansEmptied` | desktop/crates/goose-local-inference/src/lib.rs:729-858 | A request that ends with the not-loaded error left its loop with its model loaded, and then the step of another task, an eviction or a sweep, emptied its slot |
| `SlotRefusal.WhoUnloads` | desktop/crates/goose-local-inference/src/lib.rs:766-772 | A loaded slot is emptied only by an eviction or a sweep that holds its lock |
| `SlotClaims.UnloadSound` | desktop/crates/goose-local-inference/src/lib.rs:766-772 | Emptying a loaded slot without notifying anybody keeps the lock discipline: nobody can be waiting for it, so the missing notification would wake no one |
| `SlotClaims.ResolveSound` | desktop/crates/goose-local-inference/src/lib.rs:790-800 | Resolving the marked slot under both locks, to Loaded after a complete sweep or to Empty, keeps the lock discipline and leaves no waiter behind |
| `SlotInvariant.InvNext` | desktop/crates/goose-local-inference/src/lib.rs:722-891 | Every step of every task and every arrival keeps the lock discipline |
| `SlotInvariant.InvRun` | desktop/crates/goose-local-inference/src/lib.rs:722-891 | Every state of every run keeps the lock discipline |
| `SlotProgress.NeverStuck` | desktop/crates/goose-local-inference/src/lib.rs:727-772 | Every reachable state with an unfinished task has an enabled step |
| `SlotProgress.StepShrinksMeasure` | desktop/crates/goose-local-inference/src/lib.rs:722-891 | Every step lowers one number that counts the work left over all tasks, wake-ups included |
| `SlotProgress.EveryScheduleFinishes` | desktop/crates/goose-local-inference/src/lib.rs:722-891 | Once nothing arrives any more, every interleaving is bounded in length, and one that can go no further has finished every task with every lock free and no slot Loading; no fairness is assumed |
| `SlotWitness.EvictedBeforeGeneration` | desktop/crates/goose-local-inference/src/lib.rs:851-858 | A concrete run in which a model is loaded, evicted before its request generates, and the request ends with the not-loaded error |
| `TransferCorrect.RangePromotesExactly` | desktop/crates/goose-download-manager/src/lib.rs:624-656 | From a prefix of the remote file, a 206 that arrives whole is promoted to the remote file if and only if its Content-Range begins with the byte that was asked for and ends with the last byte |
| `TransferCorrect.ShortRangeTruncates` | desktop/crates/goose-download-manager/src/lib.rs:624-656 | A compliant answer that carries less than was asked for is promoted as a truncated file, although the size is known from HEAD |
| `TransferCorrect.TurnIsExact` | desktop/crates/goose-download-manager/src/lib.rs:468-654 | Every turn with a compliant answer in place keeps the file good, except that a range that stops short ends the download without the remote file |
| `TransferCorrect.PromotedExactly` | desktop/crates/goose-download-manager/src/lib.rs:425-658 | For a compliant server whose ranges, where they are cut off, began where they were asked to, and any cuts, ignored ranges, 416 answers and retries: a download that succeeds leaves exactly the remote bytes if and only if every range it received whole was all that was asked for |
| `TransferCorrect.PromotedIsRemote` | desktop/crates/goose-download-manager/src/lib.rs:425-658 | From a server that sends all it is asked for, a download that succeeds leaves exactly the remote bytes |
| `TransferSafety.SafeExactly` | desktop/crates/goose-download-manager/src/lib.rs:439-466 | Exactly the leftover partial files and HEAD sizes, right or wrong, from which no server that sends all it is asked for can make a successful download leave anything but the remote file |
| `TransferSafety.SafeFromAnyServerExactly` | desktop/crates/goose-download-manager/src/lib.rs:425-658 | Safe from every compliant server exactly when the file is there already under its right size, or has at most two bytes and a safe start |
| `TransferRetries.StatusIsRetriedExactly` | desktop/crates/goose-download-manager/src/lib.rs:507-523 | With retries left and no cancel an error status counts a retry if and only if it is 500 to 599, 408 or 429; any other ends the download at once |
| `TransferRetries.Delays` | desktop/crates/goose-download-manager/src/lib.rs:486-489 | The waits before the retries are 2, 4, 8, 16, 32 and then 60 seconds |
| `TransferRetries.BreakIsRetried` | desktop/crates/goose-download-manager/src/lib.rs:479-493 | A missing answer, a transient error or a cut stream counts a retry and its wait while one of ten is left, and else fails |
| `TransferRetries.DownloadSucceedsExactly` | desktop/crates/goose-download-manager/src/lib.rs:425-658 | From a safe start, with a working disk and no cancel, a server that sends all it is asked for whenever it answers is downloaded from, within 22 turns and with exactly the remote bytes, if and only if at most ten of its answers break |
| `TransferEndings.CancelBeforeRequest` | desktop/crates/goose-download-manager/src/lib.rs:469-472 | A cancel seen before a request deletes the partial file, sends nothing, and leaves the destination and the counter |
| `TransferEndings.CancelAtChunk` | desktop/crates/goose-download-manager/src/lib.rs:577-580 | A cancel seen at a chunk deletes the partial file; the chunks before it stay counted |
| `TransferEndings.TornChunk` | desktop/crates/goose-download-manager/src/lib.rs:582-585 | A failed write ends the download with the chunks before it counted, and part of its own in the file uncounted |
| `TransferEndings.CancelDuringWait` | desktop/crates/goose-download-manager/src/lib.rs:490-492 | A cancel during a wait ends the download and keeps the bytes |
| `TransferEndings.UnreadableSizeFails` | desktop/crates/goose-download-manager/src/lib.rs:439-443 | A partial file whose size cannot be read ends the download before any request, and stays |
| `TransferEndings.DiskFailureFails` | desktop/crates/goose-download-manager/src/lib.rs:559-656 | A file that cannot be opened, flushed or renamed is not promoted |
| `TransferEndings.LastBreakIsReported` | desktop/crates/goose-download-manager/src/lib.rs:482-514 | When no retry is left a missing answer or a cut stream is reported as such, an error status as that status |
| `TransferEndings.SizeIsLearnedOnce` | desktop/crates/goose-download-manager/src/lib.rs:533-557 | A size that HEAD did not give is learned from the first success, from Content-Range if bytes were kept and else from Content-Length, and then stays |
| `TransferEndings.RefusalCompletesOrRestarts` | desktop/crates/goose-download-manager/src/lib.rs:497-505 | 416 completes a file that has reached its known size and otherwise starts it again |
| `TransferBounds.DownloadIsBounded` | desktop/crates/goose-download-manager/src/lib.rs:468-523 | At most 10 counted retries and 362 seconds of requested back-off, always; and at most 22 requests and turns beside the requests without a Range that are answered 416 |
| `TransferBounds.EndsExactly` | desktop/crates/goose-download-manager/src/lib.rs:497-505 | From any state of the loop, it ends if and only if finitely many of its requests without a Range are answered 416 |
| `TransferBounds.DownloadEndsExactly` | desktop/crates/goose-download-manager/src/lib.rs:425-658 | The same for every download from its start |
| `TransferBounds.BoundsAreMet` | desktop/crates/goose-download-manager/src/lib.rs:482-523 | A server that drives one download to exactly 22 requests, 10 retries and 362 seconds |
| `TransferBounds.StubbornServerNeverEnds` | desktop/crates/goose-download-manager/src/lib.rs:497-505 | A server that answers 416 to everything keeps the loop running for any number of turns |
| `TransferBounds.DownloadIsBalanced` | desktop/crates/goose-download-manager/src/lib.rs:453-466 | At every head of the request loop the counter is the other shards' share plus this file's bytes, so no saturating subtraction saturates; after promotion it is that share plus the size of the destination |
| `TransferBounds.DownloadHoldsPartial` | desktop/crates/goose-download-manager/src/lib.rs:468-509 | If deletions work, the byte count equals the size of the partial file at every loop head |
| `Shards.PartialPathExtends` | desktop/crates/goose-download-manager/src/lib.rs:9-16 | The partial file stands beside its destination, under its name and `.part` |
| `Shards.LoopHeadAccounted` | desktop/crates/goose-download-manager/src/lib.rs:397-421 | Inside a shard, at every head of the request loop, the shared counter is the size on disk of all shards, corrected only by a partial file whose deletion failed |
| `Shards.AccountedExactly` | desktop/crates/goose-download-manager/src/lib.rs:397-421 | At a head of the request loop the counter is exactly the size on disk of all shards if and only if no partial file is left behind a byte count of zero |
| `Shards.FailedDeletionIsNotCounted` | desktop/crates/goose-download-manager/src/lib.rs:461-466 | A partial file larger than HEAD says that cannot be deleted leaves the counter short |
| `Shards.ShardLoopAccounted` | desktop/crates/goose-download-manager/src/lib.rs:381-419 | At every head of the shard loop the shared counter is exactly the size on disk of all shards |
| `Shards.AllShardsExact` | desktop/crates/goose-download-manager/src/lib.rs:345-422 | When all shards are done, each destination that was missing holds its remote file if and only if every range its download received whole was all that was asked for, and the others are as before |
| `Shards.AllShardsRemote` | desktop/crates/goose-download-manager/src/lib.rs:345-422 | From servers that send all they are asked for, every destination that was missing holds its remote file |
| `Downloads.Downloader.BeginFile` | desktop/crates/goose-download-manager/src/lib.rs:436-466 | Before the loop a partial file of the HEAD size is promoted and a larger one is dropped together with its share of the counter |
| `Downloads.Downloader.Rename` | desktop/crates/goose-download-manager/src/lib.rs:656-657 | The final rename moves the partial file onto the destination or fails, and touches no other path |
| `Downloads.Downloader.ReceiveBody` | desktop/crates/goose-download-manager/src/lib.rs:570-631 | The chunk loop appends exactly the chunks received before a cancel, a write error or the end of the body, and counts them |
| `Downloads.Downloader.OpenPartial` | desktop/crates/goose-download-manager/src/lib.rs:525-568 | A 200 answer to a resume drops the held bytes and their share of the counter, the size is learned once, and the file is opened at the counted length |
| `Downloads.Downloader.Retry` | desktop/crates/goose-download-manager/src/lib.rs:482-492 | A retry is counted and its delay added exactly while fewer than ten were counted |
| `Downloads.Downloader.TakeBody` | desktop/crates/goose-download-manager/src/lib.rs:525-656 | The rest of a successful turn, updating files and counter in place, does what the transfer function says |
| `Downloads.Downloader.TakeTurn` | desktop/crates/goose-download-manager/src/lib.rs:468-654 | One turn of the request loop, updating files and counter in place, does what the transfer function says and touches no other file |
| `Downloads.Downloader.DownloadOneFile` | desktop/crates/goose-download-manager/src/lib.rs:425-658 | The request loop as the source runs it reaches the state of the transfer function, the subject of the lemmas above |
| `Downloads.Downloader.ScanShards` | desktop/crates/goose-download-manager/src/lib.rs:381-394 | The counter starts as the size on disk of all shards |
| `Downloads.Downloader.DownloadSequentially` | desktop/crates/goose-download-manager/src/lib.rs:345-422 | The shard loop as the source runs it reaches the state of the shard function, the subject of the lemmas above |
| `Ledger.OneTaskPerModel` | desktop/crates/goose-download-manager/src/lib.rs:221-252 | Over every run in which no caller's write frees the record, at most one background task is live per model id, and while it is, cancelled or not, no start, reservation or clearing changes anything for that id |
| `Ledger.RefusedExactly` | desktop/crates/goose-download-manager/src/lib.rs:227-236 | A start is refused if and only if the record is downloading, or cancelled by a task that has not exited |
| `Ledger.StartIsFresh` | desktop/crates/goose-download-manager/src/lib.rs:238-251 | Any other start writes a record that is downloading, with nothing received, no error, no exit, and the given size |
| `Ledger.TickReports` | desktop/crates/goose-download-manager/src/lib.rs:611-614 | A task's report of progress changes the bytes received of its own record and nothing else |
| `Ledger.ClearedExactly` | desktop/crates/goose-download-manager/src/lib.rs:660-671 | A record is removed if and only if it is completed, failed or cancelled and its task has exited; no other is touched |
| `Ledger.ExitStatus` | desktop/crates/goose-download-manager/src/lib.rs:276-307 | The last write of a task: completed after a success, else the error and failed, unless it was cancelled |
| `Ledger.StatusTells` | desktop/crates/goose-download-manager/src/lib.rs:276-307 | Over every run, a record no caller brought in is completed only if a task for it succeeded, failed only if one failed, and cancelled only if it was cancelled |
| `Ledger.SecondTaskExactly` | desktop/crates/goose-download-manager/src/lib.rs:120-150 | While a call or task for the id is under way, a caller's write opens the way to a second live task if and only if it frees the record: it sets the exit flag, or a status other than Downloading and Cancelled |
| `Ledger.OrphanFreedExactly` | desktop/crates/goose-download-manager/src/lib.rs:120-150 | Over every continuation, a record blocked with no task behind it is freed if and only if a caller's write makes it restartable |
| `Ledger.OrphansStay` | desktop/crates/goose-download-manager/src/lib.rs:126-164 | Without a freeing write such a record stays blocked over every continuation |
| `Ledger.RecoverableExactly` | desktop/crates/goose-download-manager/src/lib.rs:126-164 | Without a freeing write an id can become free again if and only if it is not blocked with no task behind it |
| `Ledger.DirectoryFailureOrphans` | desktop/crates/goose-download-manager/src/lib.rs:254-261 | A failure to create directories leaves exactly such a record |
| `Ledger.ReservationOrphans` | desktop/crates/goose-download-manager/src/lib.rs:126-142 | So does every reservation of a record that is downloading, until its owner writes the exit flag |
| `Ledger.DownloadManager.UpdateProgress` | desktop/crates/goose-download-manager/src/lib.rs:144-150 | A caller's update is applied to an existing record and else to nothing |
| `Ledger.ExitFrees` | desktop/crates/goose-download-manager/src/lib.rs:276-307 | Recording the exit is what lets the id be started again and its record be removed |
| `Ledger.DownloadManager.ReserveDownload` | desktop/crates/goose-download-manager/src/lib.rs:126-142 | A reservation succeeds exactly when the id is not blocked, and then replaces the record |
| `Ledger.DownloadManager.CancelDownload` | desktop/crates/goose-download-manager/src/lib.rs:152-164 | Cancelling marks an existing record and nothing else |
| `Ledger.DownloadManager.BeginDownload` | desktop/crates/goose-download-manager/src/lib.rs:221-252 | A start is refused exactly when the id is blocked, with the two error cases told apart, and otherwise writes a fresh record |
| `Ledger.DownloadManager.RecordExit` | desktop/crates/goose-download-manager/src/lib.rs:276-307 | The exit keeps Cancelled on an error, and always sets the exit flag |
| `Ledger.DownloadManager.ClearCompleted` | desktop/crates/goose-download-manager/src/lib.rs:660-671 | A record is removed exactly when it is terminal and its task has exited |
| `Scanner.LeadingObjectIsShortest` | desktop/crates/goose-context-management/src/structured.rs:254-290 | The scanner returns a slice if and only if the text after leading white space opens with a brace and the slice is the shortest prefix whose out-of-string brace depth returns to zero |
| `Scanner.DepthNeverUnderflows` | desktop/crates/goose-context-management/src/structured.rs:278-284 | Until the object closes the depth is at least one, so the unsigned subtraction never underflows |
| `Scanner.TakeChar` | desktop/crates/goose-context-management/src/structured.rs:266-287 | One turn of the loop on an unsigned depth follows the scanner automaton, and returns exactly when everything is closed |
| `Scanner.ScanBody` | desktop/crates/goose-context-management/src/structured.rs:266-289 | The loop finds the first moment at which everything is closed |
| `Scanner.ScanLeadingObject` | desktop/crates/goose-context-management/src/structured.rs:254-290 | The loop computes the scanner function, the subject of the lemmas above |
| `Json.PrintedObjectIsFound` | desktop/crates/goose-context-management/src/structured.rs:254-290 | Round trip: for every JSON object, every legal way of printing it (RFC 8259), every leading white space and every suffix, the scanner returns exactly the printed object |
| `Candidates.NothingLeaks` | desktop/crates/goose-context-management/src/structured.rs:199-205 | Every candidate but the object that opens the whole text begins after the last terminator or contains it |
| `Candidates.FencedObjectOffered` | desktop/crates/goose-context-management/src/structured.rs:228-236 | A fenced object is offered if and only if a terminator ends before its fence, or there is none, and every terminator after the fence lies inside it |
| `LostObjects.UnprecededOffered` | desktop/crates/goose-context-management/src/structured.rs:219-236 | A fenced object that no terminator precedes is offered if and only if the response holds no terminator at all |
| `LostObjects.UnprecededObjectOffered` | desktop/crates/goose-context-management/src/structured.rs:219-236 | So for every printed object in a json fence behind prose without a terminator |
| `LostObjects.QuotedTerminatorLosesObject` | desktop/crates/goose-context-management/src/structured.rs:219-236 | A response that is nothing but a fenced object is lost when the object quotes the terminator |
| `Candidates.PrintedSummaryIsOffered` | desktop/crates/goose-context-management/src/structured.rs:216-252 | Completeness: a printed object in a json fence behind a terminator, with no terminator after it, is among the candidates as printed, whatever its strings quote |
| `Candidates.InOffers` | desktop/crates/goose-context-management/src/structured.rs:219-237 | Membership in the candidate list without its order: behind a fence or at a cut, holding as many terminators as the text after the cut, or opening the text |
| `Candidates.SummaryIsOffered` | desktop/crates/goose-context-management/src/structured.rs:216-252 | The same with `</analysis>` and the json fence written out |
| `TriedOrder.CandidatesInOrder` | desktop/crates/goose-context-management/src/structured.rs:195-240 | Of any two candidates in the final list, the first was offered at a later terminator, or at the same one and starts later, or the second only opens the text |
| `TriedOrder.OfferedAtOneCut` | desktop/crates/goose-context-management/src/structured.rs:228-236 | No span is offered at two terminators |
| `TriedOrder.CandidatesDiffer` | desktop/crates/goose-context-management/src/structured.rs:238 | No two neighbours in the final list have the same text |
| `CandidateOrder.LaterFencesFirst` | desktop/crates/goose-context-management/src/structured.rs:242-252 | Behind one terminator the objects behind fences are tried in strictly decreasing position, whatever fences their strings quote |
| `CandidateOrder.LaterTerminatorsFirst` | desktop/crates/goose-context-management/src/structured.rs:195-198 | All that later terminators offer is tried before anything earlier ones offer, and the object that opens the text comes last |
| `Candidates.DedupKeepsTexts` | desktop/crates/goose-context-management/src/structured.rs:238 | Dropping consecutive duplicates loses no candidate text |
| `Candidates.DedupAddsNothing` | desktop/crates/goose-context-management/src/structured.rs:238 | Dropping consecutive duplicates adds nothing |
| `Candidates.CollectCandidates` | desktop/crates/goose-context-management/src/structured.rs:216-240 | The loop over the cuts builds the candidate list, the subject of the lemmas above |
| `MiddleOut.BlockIsExact` | desktop/crates/goose-context-management/src/summarize.rs:53-67 | A removed block of at most all has its size and lies around the midpoint, except that when the count is odd and all are to go the last tool response stays |
| `MiddleOut.RemovedIsShare` | desktop/crates/goose-context-management/src/summarize.rs:53-67 | The number removed is the percentage of the tool responses rounded down, one at least, less one when all of an odd number are to go, and they lie around the midpoint |
| `MiddleOut.LadderSizes` | desktop/crates/goose-context-management/src/summarize.rs:14 | Of two or more tool responses the five attempts leave out none, a tenth, a fifth, half, and all but the last of an odd number, each rounded down and after the first attempt at least one |
| `MiddleOut.ToolIndicesExactly` | desktop/crates/goose-context-management/src/summarize.rs:29-47 | The candidates for removal are the messages that hold a tool response anywhere |
| `MiddleOut.NothingRemovedExactly` | desktop/crates/goose-context-management/src/summarize.rs:53-67 | Up to 100 percent nothing is removed if and only if the percentage is 0 or there is at most one tool response; then every attempt sends the same history |
| `MiddleOut.LargerRemovesMore` | desktop/crates/goose-context-management/src/summarize.rs:53-67 | A larger percentage removes whatever a smaller one does |
| `MiddleOut.RemovedAreToolResponses` | desktop/crates/goose-context-management/src/summarize.rs:42-47 | Only tool responses are removed, each at most once |
| `MiddleOut.WithoutKeepsTheRest` | desktop/crates/goose-context-management/src/summarize.rs:69-74 | Every other message is kept at its rank among the kept ones, and nothing else is in the result |
| `MiddleOut.PickOne` | desktop/crates/goose-context-management/src/summarize.rs:58-66 | One more pick extends the block by the next element before or after the midpoint, or by none where the list has ended |
| `MiddleOut.PickMiddle` | desktop/crates/goose-context-management/src/summarize.rs:54-67 | The alternating loop picks exactly the block, each element once |
| `MiddleOut.FilterToolResponses` | desktop/crates/goose-context-management/src/summarize.rs:37-74 | The loops return exactly the messages outside the block, in order |
| `MiddleOut.Summarize` | desktop/crates/goose-context-management/src/summarize.rs:123-175 | The first attempt that does not overflow decides the result, every earlier one overflowed, and there are at most five calls |
| `MiddleOut.AttemptsAreNested` | desktop/crates/goose-context-management/src/summarize.rs:14 | Each attempt asks about a part of what the attempt before asked about |
| `CodeFence.FenceIsLonger` | desktop/crates/goose-context-management/src/templates.rs:34-45 | No run of backticks in the code is as long as the fence, and beyond the minimum of three the fence is no longer than that needs |
| `CodeFence.RunsDescribe` | desktop/crates/goose-context-management/src/templates.rs:35-44 | The fold's counters are the longest run so far and the run that ends here |
| `CodeFence.OnlyLastLineCloses` | desktop/crates/goose-context-management/src/templates.rs:45-46 | The first line that closes the block by section 4.5 of CommonMark 0.31 is its last line, the fence written there |
| `CodeFence.ReadBack` | desktop/crates/goose-context-management/src/templates.rs:34-47 | Reading any block back by sections 2.1 and 4.5 gives the code without trailing newlines, less one carriage return at its end |
| `CodeFence.ReadBackIsCode` | desktop/crates/goose-context-management/src/templates.rs:34-47 | Reading back gives the code without trailing newlines if and only if no carriage return stands directly before them or at the end |
| `CodeFence.CarriageReturnIsLost` | desktop/crates/goose-context-management/src/templates.rs:46 | A concrete code that loses its carriage return |
| `AgentMachine.FirstApplicableStep` | desktop/crates/goose-agent/src/machine.rs:67-116 | The applied step is the first in order whose final answer was applicable; nothing is applied exactly when no step's was |
| `AgentEffects.PassIsAnswer` | desktop/crates/goose-agent/src/machine.rs:67-116 | What a pass produces has the effects of the first applicable step's answer, one by one, with an identifier on every message, and yields if and only if the answer did or the token was set at the check |
| `AgentEffects.RunAppliesAnswers` | desktop/crates/goose-agent/src/machine.rs:137-152 | Over every run each batch is the answer of the first applicable step of its turn, and the run goes on, stops or breaks only for its reasons |
| `AgentEffects.IdentifyKeepsEffects` | desktop/crates/goose-agent/src/operation.rs:216-231 | Identification keeps every effect, every message and every identifier that is there, and leaves none missing |
| `AgentEffects.MissingIdsAreDrawn` | desktop/crates/goose-agent/src/operation.rs:225-229 | A missing identifier becomes the one drawn for that message |
| `AgentMachine.CancellationIsPrompt` | desktop/crates/goose-agent/src/machine.rs:137-152 | Over every run a batch from a step that saw the cancellation yields and is the last, and at most two batches are applied once the token is set |
| `AgentMachine.CancellationStops` | desktop/crates/goose-agent/src/machine.rs:141-149 | Once the token is set the loop ends, whatever the operations do |
| `AgentMachine.TwoLateBatches` | desktop/crates/goose-agent/src/machine.rs:92-110 | A run in which two batches are applied after the token is set |
| `AgentMachine.SecondPassIsIdle` | desktop/crates/goose-agent/src/operation.rs:216-231 | Assigning message identifiers twice changes nothing the second time, whatever identifiers are drawn |
| `AgentMachine.EnsureMessageIds` | desktop/crates/goose-agent/src/operation.rs:216-231 | The loop gives exactly the messages without an identifier a fresh one |
| `AgentMachine.ProducedIsIdentified` | desktop/crates/goose-agent/src/machine.rs:129-131 | The second identifier pass, in apply, changes no identifier |
| `AgentMachine.TakeStep` | desktop/crates/goose-agent/src/machine.rs:62-117 | The loop over the steps computes the pass, the subject of the lemmas above |
| `AgentMachine.TakeTurn` | desktop/crates/goose-agent/src/machine.rs:142-149 | The effects that reach the runtime are the ones the step produced |
| `AgentMachine.RunMachine` | desktop/crates/goose-agent/src/machine.rs:137-152 | The outer loop and the final load compute the run, the subject of the lemmas above |
| `TokenBucket.LimitsHold` | desktop/oidc-proxy/src/index.js:17-44 | Over every run with a clock that does not go back, every 1000 ms window of an object's lifetime contains at most the rate of allowed checks, and allowed answers never exceed the budget, across restarts and lost answers |
| `TokenBucket.DecidesExactly` | desktop/oidc-proxy/src/index.js:22-43 | A check is refused for its rate if and only if the budget is not spent and the rate-th last allowed check lies less than 1000 ms back, for the budget if and only if that is spent, and is allowed otherwise |
| `TokenBucket.RecentTwice` | desktop/oidc-proxy/src/index.js:28 | Discarding old timestamps does not change what any later check sees |
| `TokenBucket.TokenBucket.Check` | desktop/oidc-proxy/src/index.js:17-44 | The answer is the one the full history of allowed checks calls for, although only a pruned list is kept |
| `TokenBucket.TokenBucket.Initialize` | desktop/oidc-proxy/src/index.js:9-14 | The first check starts from the stored count, later ones from the count in memory |
| `TokenBucket.PrunedListServesExactly` | desktop/oidc-proxy/src/index.js:27-29 | A list pruned at one reading shows another reading, and answers every check at it, as the full history does if and only if the clock has not gone back between the two |
| `LeanLiterals.StripReadsLean` | assurance/accordlock_assurance/linter.py:428-466 | For every Lean text whose literals fit, the loop blanks exactly its line comments and nested block comments, as a recursive-descent reader with Lean's own string literals finds them, and copies all else |
| `LeanLiterals.SameTokensExactly` | assurance/accordlock_assurance/linter.py:428-466 | The loop cuts a text where that reader does if and only if the literals fit: no quote that opens one follows a backslash, and none that is closed before the end of the text ends in an escaped backslash |
| `LeanLiterals.LiteralEndsExactly` | assurance/accordlock_assurance/linter.py:460-464 | The loop finds the end of a literal if and only if it is unclosed, ends the text, or has no backslash before its closing quote |
| `LeanLiterals.CommentBehindBackslashStays` | assurance/accordlock_assurance/linter.py:460-464 | Behind a literal that holds one escaped backslash no comment is stripped |
| `LeanComments.CommentsAndNothingElse` | assurance/accordlock_assurance/linter.py:428-466 | For every text, the loop blanks exactly the nested block comments and line comments outside what its own quote test takes for strings, and copies all else |
| `LeanComments.LengthAndLinesPreserved` | assurance/accordlock_assurance/linter.py:428-466 | Length and newline positions are preserved, and characters change only into spaces |
| `LeanComments.StrippingTwiceIsStrippingOnce` | assurance/accordlock_assurance/linter.py:428-466 | Stripping is idempotent |
| `LeanComments.CommentIsBlanked` | assurance/accordlock_assurance/linter.py:435-447 | At any depth, counting openings and closings blanks exactly the comment that recursive descent reads |
| `LeanComments.TakeTurn` | assurance/accordlock_assurance/linter.py:433-465 | One turn of the loop outputs what the stripper function says and leaves its state |
| `LeanComments.StripLeanComments` | assurance/accordlock_assurance/linter.py:428-466 | The loop computes the stripper function, the subject of the lemmas above |
| `MediaMarkers.ExtractFromMessage` | desktop/crates/goose-local-inference/src/multimodal.rs:93-108 | The inner loop appends the message's decodable images and replaces each image by the marker or a note |
| `MediaMarkers.ExtractImages` | desktop/crates/goose-local-inference/src/multimodal.rs:85-117 | The images are collected in order, and every message keeps its place and its other contents |
| `ChatText.StripInfoMessages` | desktop/crates/goose-local-inference/src/lib.rs:536-553 | The loop drops every info message, to the end of the text if one is not closed, and trims |
| `ChatText.InfoMessagesAreDropped` | desktop/crates/goose-local-inference/src/lib.rs:536-553 | Of a text with any number of info messages exactly what stands between them stays, trimmed |
| `ChatText.UnclosedInfoIsDropped` | desktop/crates/goose-local-inference/src/lib.rs:542-547 | An info message that is not closed takes the rest of the text with it |
| `ChatText.TextIsShownWithoutInfo` | desktop/crates/goose-local-inference/src/lib.rs:483-488 | A text content is rendered without info messages and outer white space, and left out if nothing else is in it |
| `ChatText.RenderingReadsBack` | desktop/crates/goose-local-inference/src/lib.rs:489-530 | The kind and the text of every tool request and tool answer can be read back from its rendering; those without text are left out, and a command goes before code |
| `ChatText.ExtractTextContent` | desktop/crates/goose-local-inference/src/lib.rs:478-534 | A message is rendered as its contents' texts joined by newlines |
| `MediaMarkers.TakeMarker` | desktop/crates/goose-local-inference/src/lib.rs:421-430 | One turn of the split loop moves one marker, and the text before it, from the text to the parts |
| `MediaMarkers.SplitMediaMarkerText` | desktop/crates/goose-local-inference/src/lib.rs:417-438 | The loop answers exactly when the text contains the marker, with the parts between and instead of the markers |
| `MediaMarkers.ConvertParts` | desktop/crates/goose-local-inference/src/lib.rs:397-413 | Every text part holding a marker is replaced by its parts, in place; the others stay |
| `MarkerAgreement.PartsConvertInPlace` | desktop/crates/goose-local-inference/src/lib.rs:397-413 | Content parts are converted one by one, in order |
| `MarkerAgreement.PartConvertsAsText` | desktop/crates/goose-local-inference/src/lib.rs:401-411 | A text part that contains the marker becomes what the same text would as a whole message; any other part stays |
| `MarkerAgreement.NoMarkerNoChange` | desktop/crates/goose-local-inference/src/lib.rs:378-380 | Without a marker nothing is converted |
| `MarkerAgreement.UndecodableImageIsNoted` | desktop/crates/goose-local-inference/src/multimodal.rs:100-104 | An image that cannot be decoded is noted in its place |
| `MediaMarkers.ConvertTextMediaMarkers` | desktop/crates/goose-local-inference/src/lib.rs:377-415 | Every message is converted in place, text content and content parts alike |
| `MediaMarkers.RenderMessages` | desktop/crates/goose-local-inference/src/lib.rs:359-370 | Messages that render blank are left out, the others keep their order |
| `MediaMarkers.BuildTextMessages` | desktop/crates/goose-local-inference/src/lib.rs:354-375 | The method computes the built chat, the subject of the lemmas below |
| `MarkerAgreement.ChatShowsMessages` | desktop/crates/goose-local-inference/src/lib.rs:354-438 | For a marker without newline, outer white space or info tag that no other rendered text contains, the built chat is exactly the messages as they are to look: neighbouring words joined, one media part for each picture, in order |
| `MarkerAgreement.MarkersAreImages` | desktop/crates/goose-local-inference/src/lib.rs:354-438 | Under the same condition there are exactly as many media parts as extracted images |
| `MarkerAgreement.SplitGivesViews` | desktop/crates/goose-local-inference/src/lib.rs:417-438 | Splitting a joined text at its markers gives back the groups of words and the pictures that were joined |
| `MarkerAgreement.PicturesAreImages` | desktop/crates/goose-local-inference/src/multimodal.rs:93-108 | The pictures a reader is to see of a message are its extracted images, in order |
| `MarkerAgreement.GroupingKeepsPictures` | desktop/crates/goose-local-inference/src/lib.rs:417-438 | Joining neighbouring words neither loses nor reorders pictures |
| `MarkerAgreement.MessageHoldsImages` | desktop/crates/goose-local-inference/src/lib.rs:417-438 | Each built message holds as many media parts as its message had decodable images |
| `MarkerAgreement.BlankIffNothingToSee` | desktop/crates/goose-local-inference/src/lib.rs:359-363 | A message is left out if and only if there is nothing to see in it, so never one with a picture |

## Left out

- Downloads.Downloader.DownloadOneFile: does not model percent, speed, ETA and the progress record's byte counts, which are estimates for display; the response bytes are those of the chunks received.
- Downloads.Downloader.DownloadSequentially: `partial_path_for` is modelled for destinations that end in a file name, and the 64-bit counters are unbounded.
- Ledger.DownloadManager.RecordExit: does not model the removal of partial files after a failed run (lines 292-295) and the completion callback.
- Downloads.Downloader.OpenPartial: opening the file, reading its size and cutting it to length are one operation, which leaves the file as it was if it fails.
- Downloads.Downloader.ScanShards: the sizes on disk can be read; the source counts nothing for one that cannot (lines 386-392).
- TransferCorrect.PromotedExactly: takes ranges that are cut off to have begun where they were asked to; whether the bytes of one that did not happen to fit depends on the file.
- Ledger.OneTaskPerModel: holds while no caller's write frees the record of the id, which `Ledger.SecondTaskExactly` shows to be the exact condition; a poisoned mutex is not modelled.
- LeanLiterals.StripReadsLean: character literals such as `'"'` are not read, neither by the loop nor by the reader it is compared with.
- Ledger.DownloadManager.CancelDownload: a late cancel may be overwritten by Completed (lines 277-285); the code does not promise otherwise.
- SlotSafety.AtMostOneModel: the readers `is_model_loaded` and `loaded_model_ids` (lines 169-213) are not modelled; they change no slot.
- SlotProgress.EveryScheduleFinishes: assumes that each load, generation and send ends, and does not model panics of a blocking task while it generates.
- TokenBucket.LimitsHold: takes one rate and one budget for the whole run, and a clock that does not go back; `TokenBucket.PrunedListServesExactly` shows why.
- Candidates.CollectCandidates: positions are positions of characters, not byte offsets; the markers are ASCII, so the slices are the same.
- MiddleOut.Summarize: template rendering, token usage and the rewriting of the response are not modelled; percentages are unbounded naturals.
- AgentMachine.TakeStep: gathering the inference input (lines 74-86) is folded into the step's answer, which may be an error; a session without a conversation is one that fails to load.
- CodeFence.ReadBack: an opening fence is read without indentation, as the code writes it.
- MediaMarkers.ConvertTextMediaMarkers: a message without a content field, and content parts other than text, are passed through as one kind of part.
- MarkerAgreement.MarkersAreImages: is about the text path; the native path through `format_messages` and `extract_images_from_messages_json` uses formats that are not part of this model.
- Parsing and normalizing the candidate (`safely_parse_json`, `normalize`, `is_empty`, `stringify_lenient`) would add only easy members beside a library.
- `assistant_turn_count`, `messages_since_kickoff` and `ends_turn` would add only easy members.
- The rest of the OIDC proxy, the TLA+ and Rust comment strippers, and the publication checks are network code, single regular expressions and comparisons of constants.
