# Project Workbench: models and proofs

Dafny models of the protocols of the workbench server that branch the most and that promise
something across several steps: no lost credential, no double delivery, no stale outcome on a
screen, no half-finished deployment.  Each module models one source file, or the two that make up one
mechanism, and proves what it says it is for, over every input, run or interleaving.

Code that changes state step by step is a class whose methods do the same steps in the same order;
code that computes is a function with lemmas.  Whatever the source waits for (a disk, a relay, a
model's answer, the clock, another process) is a nondeterministic choice, so a statement about a
method covers every combination of faults and timings.  `dafny verify dfyconfig.toml` checks the
whole project.

| module | what it models | main results |
|---|---|---|
| `OscSniffer` | the clipboard sniffer of the terminal | the same payloads for every cut of a stream, exactly when no selected sequence has a terminator in its selector |
| `PinnedDirectory`, `GitCredentials` | creating, rotating and revoking a git credential with hard-link snapshots | all or nothing whichever calls fail, but for a file left by a failed close: exactly when; the previous credential's inode keeps a name in every state |
| `TurnOutbox`, `OutboxLeases` | the multi-process delivery ledger | delivered is final and needs proof; identical sends; bounds on attempts, sends and size; nobody claims an entry within its lease or before its retry, and the next claim after that does |
| `TurnTriage` | bells, transcript reads and decisions | what is shown was read in the window's present bell epoch; after every listing each ringing window is being read, was read only now, or has been given up |
| `CiResults` | the queue of CI results | one item per lane, exact streaks, and over all runs exactly what a failed save undoes beyond its own receive, and when its retry is refused |
| `LockDomain` | ordered, re-entrant locks | mutual exclusion, no re-acquisition, acyclic waits, deadlock freedom, every call ends |
| `RuntimeWorld`, `ContainerDeploy` | candidate journal, promotion, rollback, recovery | no unrecorded candidate in any state; success means the checked image was seen running; for all answers of the world, exactly when the wait, the promotion and the rollback succeed |
| `Ustar` | the tar writer, with a reader of the format | round trip, directories once and before their children, splitting fails only when it must |
| `PromoteRequests` | the promote slot | one request in the slot at every `await`, and exactly when a submission leaves a second, whatever could not be read; approvals are for the digest that was dry-run |
| `ZoneTime` | wall-clock times and due instants | two passes find the instant iff it exists; each date fires at most once, and exactly when an evaluation finds it owed; intervals fire exactly when they have passed |
| `RunLog` | the bounded run log and its follower | the follower of one run never loses or repeats a character untold; exactly when the next run is mixed in |
| `LineRedactor` | framing of output into lines | independent of chunking for lines within the limit; exactly which longer lines are omitted |
| `Excerpt` | bounded excerpts | within the bound, one piece adjoining the kept end, and as much of it as whole paragraphs, sentences or characters fit |
| `UserNameCodec` | user names as path segments | injective exactly on names without unpaired surrogates, canonical check iff image, and when the check throws |

## Where the code and its comments differ

- The sniffer is called safe under arbitrary fragmentation.  `[^;]*` may run over a terminator, and
  then a cut right after it loses its payload: `OscSniffer.CutLosesPayload`.  The exact condition is
  `OscSniffer.FragmentationInvariantIffClean`.
- The credential snapshot is taken before the `try`, so a failure to read the config leaves the
  rollback link behind; credential and config are still as found.  A restore whose temporary file
  already exists counts as a recovery step that failed.
- "A failure leaves the repository byte-identical to how it was found": the close of the staged
  credential and that of `config.lock` stand outside the `try` that removes the file.  After such a
  failure the staged file stays with the token in it, or the lock stays and stops every later update;
  and when a foreign credential had been replaced by then, the withdrawal stops at this lock, too,
  and the old helpers remain: `GitCredentials.CloseLeavesFile`.  `GitCredentials.ApplyCredential` and
  `GitCredentials.RevokeCredential` say that the names are as found exactly when no such close
  failed, and what is withdrawn when one did.
- CI results: the rollback of a failed save puts whole arrays back.  A result that was accepted in
  between is lost with it, and what a tick has delivered is queued again:
  `CiResults.LostResultExample`; exact conditions in `CiResults.FailedSaveUndoesMoreIff`,
  `CiResults.FailedSaveQueuesAgainIff` and `CiResults.FailedSaveForgetsIff`, the last two also for a
  save that fails after an older one has failed, as in `CiResults.OvertakenSaveRevives`.  When ids
  were dropped from the list of remembered ones since the receive began, its own stays in it, so
  that its retry is refused: `CiResults.RetryIsRefusedIff`, `CiResults.StandingRetryIsRefusedIff`
  and, for how many are dropped, `CiResults.DroppedSince`.
- The rollback of a failed activation starts and ends with saving an event.  When that save fails,
  the previous image may not be back and the error is not `cancellation_failed`:
  `RuntimeWorld.UnsavedEventHidesFailedRollback`; exact condition in
  `RuntimeWorld.RolledBackOrReportedIff`.
- "A third pass cannot change the answer" is false for times the clocks skip:
  `ZoneTime.ThirdPassMayMove`; exact condition in `ZoneTime.ThirdPassIff`.
- An absolute path of exactly 101 bytes without a second slash loses its slash in a ustar header:
  `Ustar.SplitReadsBackIff`.
- `isEncodedUserName` throws on some segments it should answer with false:
  `UserNameCodec.CheckMayThrow`.
- A follower's poll names the slot and not the run, so the next run's output can be appended to the
  last one's, or the offset move backwards, with nothing said: `RunLog.AnotherRunIsMixedIn`; exact
  conditions in `RunLog.PieceAfterReplyIff` and `RunLog.MixedInIff`.
- The promote slot is looked up among the fifty latest requests, and what cannot be read counts as
  absent.  `PromoteRequests.SharesTheSlotIff` says exactly when that leaves two requests in it;
  `PromoteRequests.HiddenRequestSharesTheSlot` gives the submissions, from an empty spool, that do
  with everything read, and `PromoteRequests.UnreadSharesTheSlot` the reads that do.  An approved
  request whose approval cannot be read is withdrawn by a submission that should have been refused:
  `PromoteRequests.UnreadApprovalIsWithdrawn`, exact condition in `PromoteRequests.RefusedIff`.
- The encoding of user names is called injective.  `Buffer.from` replaces every unpaired surrogate,
  so names that differ in these alone share a segment: `UserNameCodec.NamesShareIff`,
  `UserNameCodec.OwnSegmentIff`.

## Model

| member | source | states |
|---|---|---|
| OscSniffer.FindLeftmost | app/terminal-preload.js:251-275 | the regular expression as executed finds a match exactly when one exists, the leftmost one, where a match is described without the search |
| OscSniffer.PatternIs | app/terminal-preload.js:250-251 | the pattern by its characters: prefix, selector without semicolons, base64 characters, BEL or ESC backslash |
| OscSniffer.MatchesOrdered | app/terminal-preload.js:274-278 | the sequences reported for a whole stream are real, in order, without overlap, and no match lies between them |
| OscSniffer.ResyncDead | app/terminal-preload.js:282-290 | no clean sequence of any longer stream can start in what the resynchronisation drops |
| OscSniffer.NextIsKept | app/terminal-preload.js:262-291 | the next sequence of a clean stream always starts in the text that was kept |
| OscSniffer.RunTracks | app/terminal-preload.js:270-292 | after any sequence of frames the payloads reported are those of the whole stream so far, and what was discarded is dead |
| OscSniffer.OnePush | app/terminal-preload.js:270-278 | a single frame reports exactly the matches of the pattern |
| OscSniffer.CutLosesPayload | app/terminal-preload.js:251-291 | cut after a terminator inside a selector and after that sequence, the stream yields fewer payloads than in one push |
| OscSniffer.SamePayloads | app/terminal-preload.js:242-292 | on clean streams every cut within the buffer limit yields the same payloads in the same order as one push |
| OscSniffer.FragmentationInvariantIffClean | app/terminal-preload.js:242-292 | for every stream: all cuts yield the payloads of one push if and only if no selected sequence has a terminator in its selector |
| OscSniffer.Sniffer.Push | app/terminal-preload.js:270-292 | the loops over matches and resynchronisation end in the state and with the clipboard calls of the state machine the results are about |
| GitCredentials.CaptureGitConfig | app/git-credentials.js:602-616 | an absent config and a regular one are told apart; anything else is refused |
| GitCredentials.ValidTokenIff | app/git-credentials.js:394-420 | which tokens are accepted, by character codes |
| GitCredentials.CreateFilled | app/git-credentials.js:442-468 | a new file appears only under a name nobody had, with its content and mode; it is removed again when filling it fails, and stays complete and is reported as left open when its close does |
| GitCredentials.UpdateStaged | app/git-credentials.js:710-732 | the new config is published with one rename or its lock file is dropped; no other file is altered |
| GitCredentials.SetLocalCredentialHelpers | app/git-credentials.js:710-732 | the helper list becomes exactly the given values and nothing else of the config changes, or the config is untouched; a lock that exists is left alone and refuses the change; its own lock stays exactly when its close failed |
| GitCredentials.RestoreGitConfig | app/git-credentials.js:618-651 | the config gets its captured bytes and mode back, or is absent again |
| GitCredentials.SnapshotArtifact | app/git-credentials.js:482-493 | an owned regular credential gets a second name; one that is not ours gets none |
| GitCredentials.RestoreSnapshot | app/git-credentials.js:495-505 | the old inode is the credential again and the snapshot name is gone, also when both names were already one file |
| GitCredentials.RollbackApply | app/git-credentials.js:761-784 | with every recovery step done: as found, or, when a foreign credential had been replaced, without a credential and with the helpers cleared unless the config could not be changed; in either case no litter of its own |
| GitCredentials.ApplyCredential | app/git-credentials.js:789-834 | all or nothing: the new private line with exactly the reset and store helpers, or as found, or withdrawn; withdrawn means no credential, and no helper unless a lock or the config stood in the way, which a lock whose close failed does; after a failure no other name changes if and only if no close failed; after a success the rollback link is gone unless its unlink failed, and then no name but those it had before leads to the old credential; a failure before the try changes nothing, or leaves just the link when only the config could not be read; the previous owned inode keeps a name in every state until success was verified; it succeeds exactly when no call fails, for a valid token, a credential that is absent or regular, and a config and locks that leave the helper list free; success means both were read back in the state it leaves |
| GitCredentials.RevokeCredential | app/git-credentials.js:836-877 | all or nothing for an absent or owned credential: proven absent with no helper, or as found; after a failure no other name changes if and only if the close of the lock did not fail; after a success no name that was not there before leads to the old credential, unless the unlink of the link failed; link and inode as for an apply; it succeeds exactly when no call fails, under the same conditions, and success means absence and the empty list were read back in the state it leaves |
| GitCredentials.CloseLeavesFile | app/git-credentials.js:442-832 | from any repository: the states after one failed close and an undo without further failure: a staged file that holds the token, or the old helpers without a credential and a lock that blocks every later update |
| GitCredentials.ApplyThenRevoke | app/git-credentials.js:789-877 | a revocation after an apply leaves no credential, no helper and the rest of the config as before both |
| GitCredentials.RotationKeepsConfig | app/git-credentials.js:789-834 | a second apply changes the token only |
| GitCredentials.RenameBackIsNoOp | app/git-credentials.js:495-505 | renaming an unpublished snapshot back changes nothing and leaves the link, so only the unlink after it restores the directory |
| TurnOutbox.BackoffDoubles | app/turn-outbox.js:39-42 | retry delays double until the cap and then stay |
| TurnOutbox.ValidEventIdIff | app/turn-outbox.js:32 | the event IDs that count as proof, by character codes |
| TurnOutbox.PrunedKeepsLive | app/turn-outbox.js:164-178 | pruning never removes an entry still owed a delivery |
| TurnOutbox.PrunedIs | app/turn-outbox.js:164-178 | what has ended goes after the retention time, and earlier only while the ledger is full, the oldest first |
| TurnOutbox.SizeAfterEnqueue | app/turn-outbox.js:189-213 | an accepted enqueue leaves at most `maxEntries` entries when `maxPending` is no larger |
| TurnOutbox.EnqueuedIff | app/turn-outbox.js:189-213 | an enqueue is accepted exactly when its ID is new and fewer than `maxPending` entries are owed |
| TurnOutbox.NextStepOk | app/turn-outbox.js:189-335 | every step of every process moves an entry only as its life allows, and an owed entry ends only by its own outcome or a spent lease |
| TurnOutbox.DeliveredIsFinal | app/turn-outbox.js:280-296 | over any stretch of any run a delivered entry stays exactly as it is |
| TurnOutbox.EndedOnlyDelivers | app/turn-outbox.js:280-296 | a failed or suppressed entry stays so until late proof delivers it |
| TurnOutbox.DeliveredOnlyByProof | app/turn-outbox.js:329-333 | becoming delivered needs the acknowledgement of a send of that correlation ID |
| TurnOutbox.SendsAreIdentical | app/turn-outbox.js:193-212 | every send for an entry carries the arguments first enqueued, across processes, crashes and hand-backs |
| TurnOutbox.Bounds | app/turn-outbox.js:196-276 | attempts stay within `maxAttempts` plus the entry's hand-backs, live entries within `maxPending` |
| TurnOutbox.SendsAreBounded | app/turn-outbox.js:240-335 | the sends actually made for an entry stay within the same bound |
| OutboxLeases.EndsRecorded | app/turn-outbox.js:262-333 | the step that ends an entry records when and by which proof or for which reason, and drops the message and the lease |
| TurnOutbox.TurnOutbox.Prune | app/turn-outbox.js:166-178 | expired terminal entries go, then just enough of the oldest terminal ones |
| TurnOutbox.TurnOutbox.Enqueue | app/turn-outbox.js:189-213 | one entry per correlation ID: deduplicated, refused when full, or recorded and pruned |
| TurnOutbox.TurnOutbox.Claim | app/turn-outbox.js:240-278 | the oldest due entry is leased; spent leases met on the way fail and nothing else changes |
| OutboxLeases.LeaseLasts | app/turn-outbox.js:259-274 | over any run: while a process has an entry nobody claims it before the lease, counted from the reading of its claim, is over |
| OutboxLeases.LeaseExcludes | app/turn-outbox.js:240-278 | over any stretch of a run: no claim of an entry has a reading within the lease of an earlier one, unless in between whoever had it ended the delivery or handed it back |
| OutboxLeases.LeaseEnds | app/turn-outbox.js:259-274 | from the end of the lease on the next claim takes the entry, when it is the only one owed, if and only if it has an attempt left |
| OutboxLeases.RetryWaits | app/turn-outbox.js:299-310 | a failed delivery is tried again no sooner than the base delay doubled for each earlier attempt, up to the cap, and from then on by the next claim, when it is the only entry owed |
| OutboxLeases.HandBackFrees | app/turn-outbox.js:385-403 | an entry handed back is taken by the next claim from that reading on, when it is the only one owed |
| OutboxLeases.EnqueueFrees | app/turn-outbox.js:189-213 | so is one just enqueued, and neither before |
| OutboxLeases.TakesOldest | app/turn-outbox.js:252-258 | a claim takes the entry longest due of those free with an attempt left |
| TurnOutbox.TurnOutbox.Finish | app/turn-outbox.js:282-297 | an outcome applies to the leaseholder's entry, proof whoever holds it, and nothing to a delivered one |
| TurnOutbox.TurnOutbox.Deliver | app/turn-outbox.js:312-335 | one look at the window and nothing before it, one send of the claimed arguments and only after a look with nothing against it, then the outcome both amount to; proof is recorded whoever holds the lease by then |
| TurnOutbox.TurnOutbox.Shutdown | app/turn-outbox.js:385-403 | exactly the entries this process is sending become pending and due now |
| TurnOutbox.TurnOutbox.EarliestDue | app/turn-outbox.js:180-187 | the least retry time or lease end of a live entry |
| TurnTriage.ShownIffBanded | app/turn-outcome.js:349-352 | with the default floor a decision is shown exactly when its own band is not uncertain |
| TurnTriage.RungIs | app/turn-outcome.js:738 | the rung tabs are those with a bell that are not active in an attached session |
| TurnTriage.TurnTriageMachine.ShownIsCurrent | app/turn-outcome.js:588-656 | an outcome shown for a window was decided from a transcript read queued in its present bell epoch, whatever interleaved |
| TurnTriage.TurnTriageMachine.ShownIff | app/turn-outcome.js:583-586 | a window shows an outcome exactly when its bell is up in the listing and in its state and the result kept has that outcome and passes the band and both floors |
| TurnTriage.TurnTriageMachine.NeverCalmer | app/turn-outcome.js:737-747 | the project's outcome is that of a rung tab, at least as urgent as every other, and none while any is undecided |
| TurnTriage.TurnTriageMachine.ObserveWindow | app/turn-outcome.js:701-723 | a listing moves a window's epoch on exactly at a bell edge; a bell still up keeps what it shows, any other window starts with nothing, and no other window changes; a ringing window is then being read, was decided or read only now, or has used up its attempts, and one whose bell has just risen with no read in flight has its read queued under the new generation |
| TurnTriage.TurnTriageMachine.Observe | app/turn-outcome.js:694-725 | any listing, during any read or decision, keeps what is shown current, records the bell of every window listed and changes no other project; every ringing window is attended to in that sense, one that was idle has its read queued, and a queue that is not empty leaves the loop running |
| TurnTriage.TurnTriageMachine.QueueRead | app/turn-outcome.js:714-722 | a read is queued exactly when none is in flight and the window is due for one; nothing else changes |
| TurnTriage.TurnTriageMachine.TakeItem | app/turn-outcome.js:597-601 | an item whose bell moved is skipped and its window freed for a new read |
| TurnTriage.TurnTriageMachine.NextItem | app/turn-outcome.js:597-650 | one read is judged: nothing found, the same turn, a remembered answer, or a question to the model |
| TurnTriage.TurnTriageMachine.Decide | app/turn-outcome.js:615-650 | a newer turn takes the old result away before the model is asked; the same turn changes nothing; attempts count what found nothing |
| TurnTriage.TurnTriageMachine.Answered | app/turn-outcome.js:636-655 | an answer that arrives after the bell fell or rang again changes no window's result; otherwise it is exactly what the window gets |
| CiResults.UndoRestores | app/ci-results.js:177-195 | undoing a receive with nothing in between restores queue, streak and seen |
| CiResults.BeginKeeps | app/ci-results.js:172-188 | accepting a result keeps the lane's streak equal to its failing suffix |
| CiResults.AcceptedItem | app/ci-results.js:179-186 | the other lanes' items stay, and the result comes last with its streak and the time it was received, unless it is one failure too many |
| CiResults.RecentIsRefused | app/ci-results.js:172-175 | a result accepted among the last `SEEN_LIMIT` is never accepted again |
| CiResults.AnyRunIsSound | app/ci-results.js:171-231 | in every run with any faults and interleaving: one item per lane, no queued failure above the cap |
| CiResults.QuietRunIsExact | app/ci-results.js:171-198 | when failed saves are not interleaved the streaks are exactly the failing suffixes of what was accepted |
| CiResults.NextFailureEscalates | app/ci-results.js:180-201 | the failure after `cap` in a row escalates and leaves the lane's queue empty |
| CiResults.TickRemovesOnlyHandled | app/ci-results.js:204-231 | the end of a tick removes handled items only; whatever was received meanwhile stays |
| CiResults.RunIsLogged | app/ci-results.js:172-231 | in every run the queue is what the receives and ticks that still stand have made of it, and a standing receive knows what it found and what came since |
| CiResults.FailedSaveUndoesMoreIff | app/ci-results.js:177-195 | in every run: a failed save takes another result away, forgets another id or queues a handled item again, if and only if another result was accepted since and still stands or a tick that ended since handled an item of the queue put back |
| CiResults.FailedSaveUndoesMoreWhenFullIff | app/ci-results.js:190-196 | the same when remembered ids were dropped in between |
| CiResults.RetryIsRefusedIff | app/ci-results.js:187-196 | in every run, for every receive whose save fails: its id stays remembered if and only if ids were dropped since it began, as long as its own is where it was put; otherwise if and only if the run was accepted again before the length put back; nothing is queued that it did not find |
| CiResults.StandingRetryIsRefusedIff | app/ci-results.js:187-196 | the same in terms of the ids dropped alone, for a receive that stands with no overtaken save failed since: at least one was dropped, and not its own with the ones before it unless the run was accepted again |
| CiResults.DroppedSince | app/ci-results.js:187-196 | how many ids are dropped over a stretch without failed saves: as many as, at some save of it, the ids found and the results accepted up to that save were past the limit |
| CiResults.FailedSaveQueuesAgainIff | app/ci-results.js:189-195 | in every run, for every receive, standing or overtaken: its failed save queues an item again if and only if it had found it and since then the receive that queued it was taken back, or a newer result, a tick or a queue put back removed it; and what it takes away |
| CiResults.FailedSaveForgetsIff | app/ci-results.js:189-195 | in every run, for every receive: its failed save forgets exactly the ids beyond the length it puts back |
| CiResults.OvertakenSaveRevives | app/ci-results.js:189-195 | a save that fails after an older one failed queues the older result again |
| CiResults.LostResultExample | app/ci-results.js:172-203 | a concrete run in which a saved and acknowledged result is gone |
| CiResults.CiQueue.Supersede | app/ci-results.js:183-184 | only the waiting item of the lane leaves the queue |
| CiResults.CiQueue.ReceiveBegin | app/ci-results.js:172-188 | a new result updates streak, queue and seen as the state machine's receive does; a known one changes nothing |
| CiResults.CiQueue.ReceiveAlone | app/ci-results.js:172-203 | with nothing in between a failed save leaves everything as it was, and a saved result is queued or escalated as in the run system |
| CiResults.CiQueue.TickAlone | app/ci-results.js:204-231 | each queued item is visited once; delivered, gone and overdue ones leave, exactly the latter two are escalated, in order; the run system makes the same of the same verdicts |
| LockDomain.PlanCall | app/credential-domain-lock.js:72-101 | by names: unknown ones are refused, and asking for a lock before a held one that is not held itself, and only those; otherwise the missing locks, ascending and above all held ones |
| LockDomain.PlannedIs | app/credential-domain-lock.js:81-98 | by names: a call acquires exactly what was asked for and not held, and then holds both |
| LockDomain.PlannedCallIsEnabled | app/credential-domain-lock.js:85-105 | a planned call can be made in the run system and runs its function with exactly the planned locks held |
| LockDomain.InOrderFrom | app/credential-domain-lock.js:81-83 | the canonical order of any set of locks, nothing added or dropped |
| LockDomain.RunInv | app/credential-domain-lock.js:72-107 | in every run of nested calls: a taken lock is owned by the frame that took it, an inherited one by an ancestor |
| LockDomain.MutualExclusion | app/lifecycle-lock.js:123-144 | two chains holding one lock share the frame that took it |
| LockDomain.NeverReacquires | app/credential-domain-lock.js:81-95 | a call only waits for a lock above everything its chain holds |
| LockDomain.WaitForIsAcyclic | app/credential-domain-lock.js:72-107 | no walk along wait-for edges returns to its start |
| LockDomain.DeadlockFree | app/credential-domain-lock.js:72-107 | in every run with a call under way the run can go on with a step of some call that is no timeout and no new call |
| LockDomain.StepsUseUpWork | app/credential-domain-lock.js:101-107 | without new calls every schedule ends: each step uses up work |
| ContainerDeploy.Site.TransferImage | app/deployment/container-executor.js:428-486 | the checkpoint is written before the image is sent, so no step leaves a candidate without it; success names the expected image; success takes exactly the steps checkpoint, import, end of the transfer, and a failure after the import began stops the builder or says that it could not |
| RuntimeWorld.WaitedOk | app/deployment/container-executor.js:491-543 | the wait ends normally only when the container was just seen running the wanted image under an active unit, after a health check with the wanted version; otherwise the last thing seen is not that |
| RuntimeWorld.WaitSucceedsIff | app/deployment/container-executor.js:491-543 | for all answers: the wait ends normally if and only if one of twenty attempts is reached with no abort and no failed unit or status request, and finds the wanted version, the unit active and the image running |
| RuntimeWorld.PromotionSucceedsIff | app/deployment/container-executor.js:649-673 | for all answers: a promotion succeeds if and only if the tag, the restart and the event are done without an abort and such an attempt follows |
| RuntimeWorld.PutBackSucceedsIff | app/deployment/container-executor.js:678-695 | the same for putting the previous image back |
| RuntimeWorld.WaitedCode | app/deployment/container-executor.js:494-543 | a wait that is not cut short and finds nothing fails with the code its attempts have come to |
| RuntimeWorld.GoodAnswersPromote | app/deployment/container-executor.js:649-673 | when every answer is good the promotion succeeds |
| ContainerDeploy.Site.WaitForRuntime | app/deployment/container-executor.js:491-543 | the polling loop is that wait, and ends normally under that condition |
| ContainerDeploy.Site.Activate | app/deployment/container-executor.js:649-700 | promotion and recovery reach, step by step, the state and the error that the function of the world's answers gives |
| RuntimeWorld.ActivatedEnds | app/deployment/container-executor.js:649-700 | for all answers: a promotion that succeeds leaves its image tagged and seen running; one that fails uninterrupted leaves the previous image so, or says that it could not, as long as the recovery's events can be saved |
| ContainerDeploy.Site.CleanupRuntimeCandidate | app/deployment/container-executor.js:759-769 | the checkpoint goes only after its candidate; success leaves neither |
| ContainerDeploy.Site.Recover | app/deployment/container-executor.js:819-829 | from whatever a crash left: success leaves no candidate and no checkpoint of the job, and no image is activated; success takes exactly its steps, each without a failure |
| RuntimeWorld.RolledBackOrReportedIff | app/deployment/container-executor.js:674-699 | for every state and all answers: after a failed promotion the previous image is tagged and was seen running, or a failed cancellation is thrown, if and only if the first event could be saved and either the recovery put the previous image back, its tag, restart and wait all done, or the second event could be saved |
| RuntimeWorld.ThrownIs | app/deployment/container-executor.js:674-699 | what is thrown after a failed promotion: its own failure, the failed cancellation, or the error of the event that could not be saved, exactly when |
| RuntimeWorld.UnsavedEventHidesFailedRollback | app/deployment/container-executor.js:674-699 | a state and a sequence of answers, those of a full disk, after which the new image is `latest`, nobody has seen it running and the error does not say so |
| ContainerDeploy.Stage | app/deployment/container-executor.js:568-647 | before the promotion the candidate is built from the revision, smoke-tested and on the runtime, and what ran before is tagged for a rollback; `latest` is untouched; it takes exactly the steps listed, in order, each without a failure |
| ContainerDeploy.Finish | app/deployment/container-executor.js:786-816 | clean-up or its deferral: an error is never swallowed, and replaced only by a failed cancellation or the failure to save an event; success leaves neither candidate, checkpoint nor builder unless interrupted; an uncertain or interrupted job keeps candidate and checkpoint for recovery, and any other is cleaned up or has that failure recorded |
| ContainerDeploy.Deploy | app/deployment/container-executor.js:771-817 | the whole job: no candidate without its checkpoint at any step; success means the smoke-tested image of the requested revision is tagged and was seen running under an active unit; after an uninterrupted failure the previous image is, or the failed cancellation is reported, as long as the recovery's own events can be saved; and it succeeds when nothing fails or interrupts and every answer from the promotion on is good, and only when every step was done |
| Ustar.OctalFieldReadsBack | app/deployment/container-process.js:243-247 | a number fits its field exactly when it has a digit less than the field, and then reads back |
| Ustar.SplitTarPathLoop | app/deployment/container-process.js:249-258 | the loop returns the split the completeness results are about |
| Ustar.SplitIsComplete | app/deployment/container-process.js:249-258 | a path is refused only when no slash of it gives a legal split |
| Ustar.SplitReadsBackIff | app/deployment/container-process.js:249-258 | name and prefix read back as the path, except for a slash followed by 100 bytes without one |
| Ustar.SumFits | app/deployment/container-process.js:274-276 | the sum of a header always fits six octal digits |
| Ustar.TarHeader | app/deployment/container-process.js:260-278 | the buffer written in place and its checksum loop give the specified header |
| Ustar.HeaderReadsBack | app/deployment/container-process.js:260-278 | a reader accepts the header's checksum and gets path, type, mode, owners and size back, for every path without a NUL but the one shape that loses its slash |
| Ustar.HeaderLayout | app/deployment/container-process.js:260-278 | the bytes a reader does not ask for: zero time, the ends of the sum, type, magic and version, nothing else |
| Ustar.ArchiveReadsBack | app/deployment/container-process.js:285-313 | an archive is whole blocks and reads back as exactly its members, in order |
| Ustar.ArchiveFailsIff | app/deployment/container-process.js:243-278 | packing fails exactly when some member cannot be held by the format |
| Ustar.MembersAreOrdered | app/deployment/container-process.js:296-304 | each parent directory occurs once, before everything in it, whatever the paths and the order of the files |
| Ustar.MembersAreFiles | app/deployment/container-process.js:296-310 | apart from directories the members are the files, once each and in order |
| Ustar.BuildTarArchive | app/deployment/container-process.js:285-313 | the loop over files and segments gives that archive, or its first error |
| Ustar.RoundTrip | app/deployment/container-process.js:285-313 | reading back what was built gives the files with contents, modes and owners, in order, and each directory once before its children, when no path or directory has a NUL or that shape |
| Ustar.RelativeIsPortable | app/deployment/container-process.js:296-304 | which no relative path without a NUL has |
| PromoteRequests.SlotOnlyEmpties | app/promote-requests.js:41-50 | time and the runner never put a request into the slot, nor make one busy without an approval |
| PromoteRequests.OccupiesIff | app/promote-requests.js:32-50 | on the request's files: which requests are busy, pending, or in the slot |
| PromoteRequests.ApprovedUntil | app/promote-requests.js:46 | an approved request that nothing moves leaves the slot when its approval runs out and not before |
| PromoteRequests.NewestAreListed | app/promote-requests.js:112-123 | the request in the slot is among the fifty listed as long as its second saw at most fifty |
| PromoteRequests.PromoteSlot.List | app/promote-requests.js:69-117 | the states read one by one still tell of everything that is active after the last read, but for the requests not read as they were; with nothing moving meanwhile they are those of the files that could be read |
| PromoteRequests.PromoteSlot.Submit | app/promote-requests.js:125-143 | refused only while a request was busy or was misread; whatever is in the slot beside the new request was not among the fifty listed or was misread, in an uncrowded spool the latter, and without a misreading nothing is, at any `await`; with nothing moving it fails for another reason only when a write failed |
| PromoteRequests.SharesTheSlotIff | app/promote-requests.js:69-138 | for every spool and whatever could not be read: a submission leaves a second request in the slot if and only if one in it had at least fifty directories above it, was not read, was read as one that is over, or was being promoted and read as waiting |
| PromoteRequests.AllReadSees | app/promote-requests.js:112-138 | with every file read that condition is the fifty directories alone |
| PromoteRequests.RefusedIff | app/promote-requests.js:125-129 | a submission is refused if and only if one of the fifty latest was read as approved or promoting; with every file read, if and only if one of them is |
| PromoteRequests.UnreadSharesTheSlot | app/promote-requests.js:69-138 | an unreadable directory, request, or status and approval after which two requests are in the slot |
| PromoteRequests.UnreadApprovalIsWithdrawn | app/promote-requests.js:69-138 | an approved request whose approval cannot be read is superseded by a submission |
| PromoteRequests.PromoteSlot.Approve | app/promote-requests.js:145-163 | unless the request was misread: approved only, and refused as not approvable exactly otherwise, when its dry run has ended well at most a day before the read and nobody has decided; a promote job is queued only with an approval of the digest the dry run reported, for a day from then, and with no other of the fifty latest busy that was not misread; likewise |
| PromoteRequests.PromoteSlot.Reject | app/promote-requests.js:165-171 | unless the request was misread, refused exactly when it has been decided or is over but for a failed dry run; the request leaves the slot, unless it was being promoted and misread; a refusal writes nothing |
| PromoteRequests.HiddenRequestSharesTheSlot | app/promote-requests.js:112-138 | fifty-two submissions within one second, from an empty spool, after which two requests are in the slot |
| ZoneTime.TwoPassesFindIt | app/scheduled-tasks.js:67-76 | with one offset change within a day, two passes render to the wanted time if and only if it exists |
| ZoneTime.ThirdPassIff | app/scheduled-tasks.js:64-66 | a third pass changes nothing if and only if the wanted time exists |
| ZoneTime.ThirdPassMayMove | app/scheduled-tasks.js:64-66 | a skipped hour in which it does |
| ZoneTime.GapAlternates | app/scheduled-tasks.js:67-76 | inside the skipped hour the passes alternate for ever |
| ZoneTime.OnePassIff | app/scheduled-tasks.js:63-65 | when a single pass is enough |
| ZoneTime.InstantForLocal | app/scheduled-tasks.js:67-76 | the loop computes the two passes the results are about |
| ZoneTime.DuesIncrease | app/scheduled-tasks.js:160-186 | under any clock the recorded instants of a daily task strictly increase and belong to their dates |
| ZoneTime.EachDateOnce | app/scheduled-tasks.js:179-186 | no local date is fired for twice |
| ZoneTime.FiresIffOwed | app/scheduled-tasks.js:160-186 | in any zone: an evaluation fires exactly when the task is enabled, its date's time has come, it is no Saturday or Sunday that is excluded, and neither the record nor a firing is for that instant or a later one |
| ZoneTime.FiredByDate | app/scheduled-tasks.js:160-186 | unless the zone crosses the date line, a firing is for an earlier instant exactly when it is for an earlier date |
| ZoneTime.IntervalFiresIff | app/scheduled-tasks.js:165-169 | an interval task fires, now, exactly when it is enabled and nothing is on record or the interval has passed since |
| ZoneTime.DailyRenders | app/scheduled-tasks.js:172-186 | what a daily task records renders in its zone to its date at its minute, whenever that time exists |
| ZoneTime.FiredToday | app/scheduled-tasks.js:172-186 | an evaluation records at most one more instant, filed under the local date of the evaluation |
| ZoneTime.IntervalsApart | app/scheduled-tasks.js:165-169 | firings of an interval task are at least the interval apart |
| RunLog.Run.Append | app/deploy-runs.js:71-81 | the retained output is the last `cap` characters of everything written, and `truncated` says so |
| RunLog.SinceIs | app/deploy-runs.js:153-162 | a poll inside the window gets exactly what is missing, one outside gets the window and is told |
| RunLog.BehindIffLost | app/deploy-runs.js:156-162 | a follower is told `behind` exactly when characters it has not seen are gone |
| RunLog.Follow | app/deploy-follow.js:248-283 | for any interleaving of appends, polls and dropped replies the text is one piece of the output ending at the offset, which is where the last answer ended; it starts where it started unless `behind`, and is complete at the end |
| RunLog.WhenTold | app/deploy-runs.js:156-162 | a poll is told exactly when what it asks for is no longer retained; an offset moves backwards only untold |
| RunLog.PieceAfterReplyIff | app/deploy-follow.js:270-280 | whatever run answers: the text is a piece of its output if and only if the follower was told or what it held was one already |
| RunLog.StillOldRunIff | app/deploy-follow.js:270-280 | when the text is still a piece of the run that was followed |
| RunLog.MixedInIff | app/deploy-follow.js:270-280 | exactly when the reply of the slot's next run, unannounced, leaves a text that is a piece of neither run |
| RunLog.SameRunKeepsPiece | app/deploy-follow.js:270-280 | a reply whose run id is the one followed always leaves a piece of that run |
| RunLog.AnotherRunIsMixedIn | app/deploy-follow.js:270-280 | both ways in which it happens, on concrete runs |
| LineRedactor.Redactor.Write | app/deployment/output.js:22-35 | after any chunk the emissions are one per ended line, and the marker for an open line given up |
| LineRedactor.Redactor.End | app/deployment/output.js:36-39 | a last line without a newline comes out once, unless it is empty |
| LineRedactor.LinesAreTheTexts | app/deployment/output.js:23-30 | cutting a text into chunks does not change its lines |
| LineRedactor.EachLineRedactedOrOmitted | app/deployment/output.js:23-35 | every emission is its line redacted, or the marker for a line over the limit |
| LineRedactor.FramingIgnoresChunks | app/deployment/output.js:17-41 | with lines within the limit any two ways of cutting give the redaction of each line in order, and at the end of the last one unless it is empty |
| LineRedactor.LongLineDependsOnChunks | app/deployment/output.js:31-35 | a longer line is omitted when its newline is a write of its own, and redacted whole when both are one write |
| Excerpt.Fill | app/turn-context.js:141-150 | as many whole parts as the budget holds, no more and no fewer |
| Excerpt.EdgeSegments | app/turn-context.js:129-139 | all segments of the window at the kept edge but the one it cut, and together an edge of the string |
| Excerpt.SpacesAre | app/turn-context.js:153-171 | the characters that count as white space, by their codes |
| Excerpt.FilledOnce | app/turn-context.js:132-150 | what fills a budget from an edge is determined |
| Excerpt.SplitParagraphs | app/turn-context.js:153-155 | paragraphs and breaks, together the text; no break within a paragraph, one whole break after each but the last |
| Excerpt.Within | app/turn-context.js:152-171 | all whole paragraphs at the kept end that fit, of the next, which does not, the sentences that fit, or failing those its characters; within the budget, one piece adjoining the kept end up to white space |
| Excerpt.BoundedExcerpt | app/turn-context.js:173-182 | never longer than `max`; the text itself, the part of the marker that fits, or the whole marker next to what was chosen of the text; the marker alone exactly when that is blank |
| UserNameCodec.DecodeEncode | app/user-credentials.js:71-94 | decoding undoes encoding on every sequence of bytes |
| UserNameCodec.Injective | app/user-credentials.js:60-67 | two byte sequences never share a segment |
| UserNameCodec.NamesShareIff | app/user-credentials.js:60-79 | two names share a segment if and only if they are the same once unpaired surrogates are replaced; two names without one never do |
| UserNameCodec.OwnSegmentIff | app/user-credentials.js:60-79 | no other name without unpaired surrogates shares a name's segment if and only if it has none itself |
| UserNameCodec.NameDecodes | app/user-credentials.js:71-94 | decoding the segment of a name gives the name with its unpaired surrogates replaced |
| UserNameCodec.SegmentIsOneName | app/user-credentials.js:69-70 | a segment is not empty, `.` or `..`, and holds no separator |
| UserNameCodec.Spelling | app/user-credentials.js:74-78 | letters, digits, `_` and `-` stand for themselves, every other byte for a percent sign and two upper-case hexadecimal digits |
| UserNameCodec.RepairedIff | app/user-credentials.js:93-104 | a decoded string gives its bytes back exactly when they are well-formed UTF-8 |
| UserNameCodec.WellFormedIff | app/user-credentials.js:93-94 | bytes are well formed if and only if they are the UTF-8 of some characters |
| UserNameCodec.CutShort | app/user-credentials.js:93-94 | a character cut short, by the end or by a byte that cannot continue it, becomes one replacement character |
| UserNameCodec.Stray | app/user-credentials.js:93-94 | so does a byte no character starts with |
| UserNameCodec.Kept | app/user-credentials.js:93-94 | and a whole character is kept |
| UserNameCodec.EncodeUserName | app/user-credentials.js:71-83 | the encoding, refused when empty or longer than 255 |
| UserNameCodec.DecodeUserName | app/user-credentials.js:85-94 | the loop decodes every segment of the grammar and nothing else |
| UserNameCodec.SegmentIff | app/user-credentials.js:96-104 | the canonical check holds exactly on the encoder's image |
| UserNameCodec.IsEncodedUserName | app/user-credentials.js:96-104 | true exactly for the encoder's image within 255 bytes, unless re-encoding overflows |
| UserNameCodec.CheckMayThrow | app/user-credentials.js:96-104 | a segment of 255 characters on which the check throws |

## Left out

- The real file system, procfs descriptor pinning, spawned processes, SSH, Podman, tmux and HTTP: abstract stores whose operations may fail; flock is a mutex.
- Git credentials: target planning, pin opening and revalidation (app/git-credentials.js:97-380), inventory and repair (998-1179).  A process that dies half-way is covered by the claim about every state, not by a recovery run, since the source has none.
- Turn outbox: the unlocked look before a claim, timers and the drain loop, logging, a corrupt ledger file, the shape checks of a new entry, fields that are only displayed, and the HTTP client.
- Turn triage: the hand-over to the relay (app/turn-outcome.js:658-691), whose generation check looks at a state object that may have been dropped; excerpts of the ask; which cached answer is evicted.
- CI results: signatures, parsing and matching of repositories, the text of the prompt.
- Locks: a wait that times out releases what was taken and returns; error values are not modelled, nor tasks that outlive the section they were started in, which inherit its held set.
- Container deployment: scripts and Windows targets, the dependency worker, deadlines and byte limits.  Requests are taken to have ended when they are answered or given up, as the relay reaps what it started; nothing else tags the target's images meanwhile; a job's directory is fresh.
- Promote requests: log tails, ids that do not parse, and the host runner, which is assumed to move requests forward only, to promote only what is approved and not expired when it writes `promoting`, and not to remove a request with a promote job.
- PromoteRequests.PromoteSlot.Submit: that nothing else is in the slot is stated for spools with at most fifty requests in any one second and nothing misread, because the source looks at fifty and takes what it cannot read as absent.
- Zone arithmetic: the calendar (dates are day numbers) and offsets with seconds; two changes within a day.
- Run log: archiving finished runs, listing them, painting, hidden tabs, and the first fetch.
- Line redactor: the patterns of `redactOutput`; writes after `end`.
- Excerpt: string lengths count characters, not UTF-16 code units, so surrogate pairs count once.
- User names: reading and writing the credential files.
- Browser pages, secret patterns, cue words and the other modules of the repository, which would add only members about one branch each.
