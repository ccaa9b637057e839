# Contiwatch, modelled and verified

Contiwatch is a controller and agent for Docker hosts, written in Go, with a browser page. This
project models the parts of it that are state machines, protocols or stream transformers, and
proves what they promise over every run and every input. `dafny verify dfyconfig.toml` checks all
of it.

| module | models |
|---|---|
| `Deadlines`, `StackJobs`, `RemoteStackJobs` | stack jobs with a movable deadline, on a controller and on an agent |
| `PinSessions`, `PinAttempts`, `TokenBucket` | the PIN guard: sessions, tickets, the attempt table and the global budget |
| `CheckQueue` | reachability checks: callers, a bounded queue and ten workers |
| `ResourcePool`, `ContainerUpdate`, `LogLines` | the Docker watcher: its worker pool, the update of a container, the line splitter |
| `ScanStates`, `AutoUpdates`, `LocalAnswers`, `RemoteAnswers`, `ScanRuns` | scan states and the scan and update of every local and remote server |
| `LogChunks`, `ComposeOutput`, `EnvFile`, `Versions`, `VersionTexts` | text and byte transformers |
| `ResourceCache`, `ScopedRefresh` | the resource cache and the page's refresh guard |
| `Basics`, `Text`, `Bytes` | shared definitions |

How the code is carried over:

- An object the code changes in place is a class; each of its methods is proved to make exactly one
  step of a specification on values, and the properties are lemmas about all runs of these steps.
- A section under a mutex, a channel operation or a call to the outside is one step. Runs interleave
  steps of all goroutines freely. The clock is a parameter that never goes back from one reading to
  the next. Where the code reads it twice in a step the readings are separate parameters; where it
  reads it before it takes the lock, in the PIN guard and for scan states, the readings of a run come
  in any order, unless a lemma says otherwise.
- Docker, agents, sockets and random sources answer through parameters: any answer, success or
  failure, is possible. Random ids and tokens are fresh.
- Integers are unbounded where the code's 64-bit values cannot overflow in practice; `Versions.Atoi`
  models the range check of `strconv.Atoi`. Tokens of the budget are reals.

What turned out different from what the code's names, comments or documentation suggest:

- The grace of 30 s that lets the agent report its own timeout first is shorter than the 60 s a start
  request may take (internal/server/stack_jobs.go:27, internal/server/stack_jobs.go:392-397).
  `RemoteStackJobs.AgentTimesOutFirst` gives the exact condition, `SlowStartOutlastsGrace` a run
  that misses it.
- `ContainerResources` never returns a worker's own error: recording it cancels the context, and the
  context's error is returned first (internal/dockerwatcher/watcher.go:310-338).
- `ensureRemoteCheck` may answer that a server is being checked although nobody will check it, when
  the queue is full and the first caller is about to take its mark back
  (internal/server/server_info.go:169-197). `CheckQueue.PromiseIsKept` says exactly when the answer
  holds, `FullQueueBreaksAPromise` is a run from the start in which it does not.
- The integer branch of `compareDevVersions` is never reached (internal/server/release_check.go:381-402).
  Numbered and named versions mixed are not ordered: 2 < 10 < 1x < 2.
- A `.env` line that ends in two carriage returns loses one each time it is sanitised; `EnvFile.SanitisingTwice`
  says exactly when a second pass changes nothing.
- `setScanStateKey` reads the clock before it takes the lock (internal/server/server.go:190-192), so a
  writer that had to wait can finish a scan before it started. `ScanStates.WellTimedUnlessLate` says
  for every run exactly when the times stay in order, `LateWriteEndsBeforeStart` is a run that breaks
  them.
- `pinOnVerifyFailure` also reads it before (internal/server/pin_guard.go:454-455), so of two racing
  failures the one that gets the lock last may take back part of a lock. `PinAttempts.LockHolds` gives
  the exact condition, `LateFailureShortens` a run.
- `pinSessionAuthorized` reads it before too (internal/server/pin_guard.go:181-182), so a use that gets
  the lock late sets a session back, and it can be pruned within a day of its latest use.
  `PinSessions.SessionLivesUntilEnded` says for every run exactly when a session lives,
  `LateUseShortensSession` is a run that shows the effect.
- `triggerRemoteScans` leaves a remote server done although the agent's result carries an error, where
  `runScan` leaves a local one in error (internal/server/server.go:1420-1424, 1782). The error can come
  with the scan's answer or with the status of an agent that an update restarted, which replaces the
  result (internal/server/server.go:2029-2037). `ScanRuns.RemoteIsDoneUnlessACallFailed` says exactly
  when, `RemoteDoneWithError`, `RestartBringsError` and `RestartClearsError` run such scans, and
  `LocalIsDoneWithoutError` is the local counterpart.

The refresh guard has one exception in the model that the page's event loop rules out:
`ScopedRefresh` lets an update of the server options fall between an answer and the finally block
that follows it, which is more than a browser does. `StepKeepsInv` says that this alone can break the
guard; `QuietPageIsRight` and `PageConverges` need no exception once such updates wait.

## Model

| member | source | states |
|---|---|---|
| Deadlines.RunInvariant | internal/server/stack_jobs.go:83-115 | In every state of every run the timer is never set before the deadline, has expired only once the deadline passed, and the deadline is the first one plus exactly the granted extensions. |
| Deadlines.FrozenAfter | internal/server/stack_jobs.go:92-115 | Once the timer went off or was stopped, the deadline never moves again. |
| Deadlines.NoExtensionAfterFireOrStop | internal/server/stack_jobs.go:92-101 | No extension succeeds after the timer fired or after Stop. |
| Deadlines.TimeoutNotBeforeLastDeadline | internal/server/stack_jobs.go:83-101 | A timeout cancel never comes before the last deadline the whole run grants. |
| Deadlines.TimerIsNotLate | internal/server/stack_jobs.go:83-101 | The timer is set for the deadline, or at once if that has passed, plus only the time between the two clock readings it was last set with. |
| Deadlines.ExtensionGrantedIff | internal/server/stack_jobs.go:92-101 | An extension is granted exactly if neither the timer went off nor the work stopped before it. |
| Deadlines.FirstCancelWins | internal/server/stack_jobs.go:83-115 | The cause recorded is a timeout exactly if the timer's cancel was the first cancel. |
| Deadlines.ExtendableDeadline.constructor | internal/server/stack_jobs.go:83-90 | The new deadline is the specified initial one. |
| Deadlines.ExtendableDeadline.Extend | internal/server/stack_jobs.go:92-101 | One extension step: granted exactly while the timer is armed, and the deadline returned is the current one. |
| Deadlines.ExtendableDeadline.Stop | internal/server/stack_jobs.go:110-115 | One stop step: the timer is halted and the context released, a timeout that came first stays. |
| StackJobs.KeyIsInjective | internal/server/stacks.go:700-708 | A job key determines scope and stack name, since validated names hold no slash. |
| StackJobs.OneRunningJobPerStack | internal/server/stack_jobs.go:232-264 | In every state of every run at most one job runs per scope and stack. |
| StackJobs.ConflictIffRunning | internal/server/stack_jobs.go:232-249 | A start is refused as a conflict exactly when that stack of that server has a running job, and then launches nothing. |
| StackJobs.TerminalStatusIsFinal | internal/server/stack_jobs.go:164-176 | A terminal status and its finishing time never change again. |
| StackJobs.FindableUntilRetention | internal/server/stack_jobs.go:266-282 | A launched job is found while it runs and for at least fifteen minutes after it finished. |
| StackJobs.JobTimeoutNotEarly | internal/server/stack_jobs.go:232-264 | A job is cancelled for timing out only once the last deadline it ever gets has passed. |
| StackJobs.NoJobExtensionAfterFireOrStop | internal/server/stack_jobs.go:190-209 | After a job's timer fired or its goroutine stopped the deadline, no extension is granted. |
| StackJobs.StatusIsTheOutcome | internal/server/stack_jobs.go:164-176 | From its finish on a job says how its action ended and when. |
| StackJobs.StartDropsOldJobs | internal/server/stack_jobs.go:273-282 | Every start drops exactly the finished jobs older than fifteen minutes. |
| StackJobs.StackJob.Extend | internal/server/stack_jobs.go:190-209 | The deadline moves exactly if the job runs, is extendable, the agent (if asked) agreed and the timer is armed; which error otherwise. |
| StackJobs.StackJob.Finish | internal/server/stack_jobs.go:164-176 | The status, finishing time and phase after the action returned, all else unchanged. |
| StackJobs.StackJobManager.Prune | internal/server/stack_jobs.go:273-282 | Visiting the map in any order leaves exactly the jobs that are not past retention. |
| StackJobs.StackJobManager.Start | internal/server/stack_jobs.go:232-264 | The whole new table and the answer: conflict exactly when the key is busy after pruning, otherwise a fresh job under the new id. |
| RemoteStackJobs.DeadlineAccounting | internal/server/stack_jobs.go:446-464 | In every interleaving of start, agent start after a delay, extensions and lost replies: controller deadline minus agent deadline is the grace minus the delay, plus ten minutes per controller-only extension, minus ten minutes per extension only the agent made. |
| RemoteStackJobs.AgentTimesOutFirst | internal/server/stack_jobs.go:392-397 | The agent's deadline is no later than the controller's exactly if the delay is covered by the grace and the balance of one-sided extensions. |
| RemoteStackJobs.ControllerTimeoutFollowsAgent | internal/server/stacks.go:547-558 | Under that condition a timeout at the controller comes after the agent's own deadline. |
| RemoteStackJobs.SlowStartOutlastsGrace | internal/server/stack_jobs.go:22-31 | A run in which a start after 45 s lets the controller time out 15 s before the agent. |
| RemoteStackJobs.SuccessMeansBothMoved | internal/server/stack_jobs.go:190-209 | An extension that was sent through the agent succeeds only if the agent moved too. |
| RemoteStackJobs.UninterruptedExtension | internal/server/stack_jobs.go:190-209 | While the job runs and both timers wait, an extension whose requests all arrive moves both deadlines by ten minutes and succeeds. |
| RemoteStackJobs.FirstDeadlines | internal/server/stacks.go:537-558 | The first deadlines of every action on either side, and the 30 s between them. |
| RemoteStackJobs.PollAgent | internal/server/stack_jobs.go:466-501 | Polling stops at the first decisive turn, with the outcome that turn means and the error of the turn before. |
| PinSessions.SessionLivesWhileChannelOpen | internal/server/pin_guard.go:177-311 | In every state of every run a session is in the map exactly while its done channel is open, no step closes a channel twice, and every channel a stream holds is closed unless its session is in the map. |
| PinSessions.DeadSessionStaysDead | internal/server/pin_guard.go:210-244 | After revocation or pruning a session never authorises, never redeems a ticket issued before or after, and all its streams' channels are closed. |
| PinSessions.RevocationEnds | internal/server/pin_guard.go:210-225 | Revoking an issued session takes it out of the map for good. |
| PinSessions.TicketIsSingleUse | internal/server/pin_guard.go:272-291 | A ticket is redeemed at most once in any run. |
| PinSessions.TicketOrigin | internal/server/pin_guard.go:246-266 | A stored ticket was created earlier in the run, for its session and with its expiry. |
| PinSessions.RedemptionIsJustified | internal/server/pin_guard.go:272-291 | A redeemed ticket was created for the session it yields, less than 30 s ago, and that session lives now, even if a revocation fell between authorising and creating the ticket. |
| PinSessions.SessionLivesUntilEnded | internal/server/pin_guard.go:177-244 | In every run, on readings in any order, a session created or authorised at one event is alive at a later one, its channel open, exactly if no event in between revokes it or prunes with a reading more than a day after its last use. |
| PinSessions.LivingSessionIsAuthorized | internal/server/pin_guard.go:177-192 | It is then authorised exactly at readings at most a day after its last use. |
| PinSessions.SessionInUseLives | internal/server/pin_guard.go:177-192 | So a use is good for a day, if nobody revokes the session and no later use was read before it. |
| PinSessions.LateUseShortensSession | internal/server/pin_guard.go:177-192 | A run in which a late use sets a session back and it is pruned three hours after its latest use. |
| PinSessions.TicketIsKept | internal/server/pin_guard.go:246-291 | A ticket of a living session is stored exactly until it is presented, its session revoked, or a prune reads a time past its expiry. |
| PinSessions.TicketIsRedeemed | internal/server/pin_guard.go:272-291 | It is redeemed for its session exactly if nothing took it away, it is less than 30 s old and the session is authorised. |
| PinSessions.SessionTable.Prune | internal/server/pin_guard.go:227-244 | The loops over sessions and tickets leave exactly the specified maps and closed channels, and close none twice. |
| PinSessions.SessionTable.Authorize | internal/server/pin_guard.go:177-192 | One authorise step, and its answer. |
| PinSessions.SessionTable.Create | internal/server/pin_guard.go:194-208 | One create step: a new session with an open channel. |
| PinSessions.SessionTable.Revoke | internal/server/pin_guard.go:210-225 | One revoke step: the session, its tickets and its open channel are gone, nothing else. |
| PinSessions.SessionTable.CreateTicket | internal/server/pin_guard.go:246-266 | One ticket step; a blank session token is refused. |
| PinSessions.SessionTable.Consume | internal/server/pin_guard.go:272-291 | One redemption step: the ticket is gone whatever the answer. |
| PinSessions.SessionTable.Watch | internal/server/pin_guard.go:293-311 | A stream gets its session's channel, or a closed one if the session is gone. |
| PinAttempts.TableBounds | internal/server/pin_guard.go:372-405 | In every state of every run, on clock readings in any order, the table has at most 4096 entries, no lock outlasts its entry's update by more than 32 min, and pruning keeps every live lock. |
| PinAttempts.WhoRemovesALock | internal/server/pin_guard.go:390-405 | A live lock is removed only by that client's success or by the eviction of the least recently updated entry from a full table. |
| PinAttempts.LockHolds | internal/server/pin_guard.go:428-481 | While its entry stays, a lock lasts at least until the time it was given exactly if no failure of its client, read at `at`, has `at` plus the next lock's length before that time; and as long as it lasts every attempt before that time is refused. |
| PinAttempts.PromptFailureKeepsLock | internal/server/pin_guard.go:453-481 | A failure read no earlier than the client's last one never shortens a lock. |
| PinAttempts.LateFailureShortens | internal/server/pin_guard.go:453-481 | A run of racing failures in which a late one takes back part of a lock. |
| PinAttempts.LockForGrows | internal/server/pin_guard.go:453-481 | A lock lasts from one minute to 32 min and never shortens with further failures. |
| PinAttempts.LockedFromTheFifth | internal/server/pin_guard.go:453-481 | In every state of every run a client is locked exactly from its fifth failure on, from its last failure for 1, 2, 4, 8, 16 and then 32 min. |
| PinAttempts.FailuresAreCounted | internal/server/pin_guard.go:453-481 | While an entry is kept, it counts every failure since the first, and the last dates it. |
| PinAttempts.SuccessForgets | internal/server/pin_guard.go:447-451 | After a success the client has no entry until it fails again, and that failure is its first. |
| PinAttempts.PruningIsComplete | internal/server/pin_guard.go:372-388 | Pruning is due every ten minutes or at capacity, and then drops exactly the entries not updated for a day. |
| PinAttempts.ClientAddress | internal/server/pin_guard.go:341-370 | The client key is never blank; behind trusted proxies it is the last hop that is not trusted, or the first hop. |
| PinAttempts.AttemptTable.Prune | internal/server/pin_guard.go:372-388 | The loop leaves exactly the entries that are not expired. |
| PinAttempts.AttemptTable.EnsureCapacity | internal/server/pin_guard.go:390-405 | A full table loses a least recently updated entry, any other nothing. |
| PinAttempts.AttemptTable.BeforeVerify | internal/server/pin_guard.go:428-445 | One check step, refused exactly while locked or out of budget, and the wait told. |
| PinAttempts.AttemptTable.OnSuccess | internal/server/pin_guard.go:447-451 | The client's entry is gone, nothing else. |
| PinAttempts.AttemptTable.OnFailure | internal/server/pin_guard.go:453-481 | One failure step: pruned, room made, counted, and locked from the fifth failure on for the time told. |
| TokenBucket.TokensStayInRange | internal/server/pin_guard.go:407-426 | Tokens stay between 0 and 20 over every run. |
| TokenBucket.WindowBound | internal/server/pin_guard.go:407-426 | Any stretch of attempts inside a window of T seconds admits at most 20 + T, in whatever order the clock was read. |
| TokenBucket.EveryWindowIsBounded | internal/server/pin_guard.go:407-426 | On a clock that never goes back, any window of T seconds of a whole run admits at most 20 + T attempts. |
| TokenBucket.LateReadingCountsAsLatest | internal/server/pin_guard.go:407-446 | A reading older than the last counts as the latest one: every attempt is decided as if it had read that. |
| TokenBucket.EveryWindowOnAnyClock | internal/server/pin_guard.go:407-446 | On readings in any order, any window of T seconds of the bucket's own time admits at most 20 + T attempts. |
| TokenBucket.RefusalWait | internal/server/pin_guard.go:418-425 | A refused caller is told one second; on a clock that never goes back the next attempt is admitted exactly when the missing part of a token was refilled. |
| TokenBucket.BurstAfterIdling | internal/server/pin_guard.go:407-426 | At any moment as many attempts are admitted at once as tokens were left plus one per idle second, up to twenty, and not one more. |
| TokenBucket.GlobalBudget.Consume | internal/server/pin_guard.go:407-426 | One attempt step on the fields, admitted exactly when a token is there. |
| CheckQueue.EveryMarkHasOneOwner | internal/server/server_info.go:169-308 | In every interleaving, callers on their way plus queue entries plus workers that hold a key are one if it is pending and none otherwise, and the queue stays within 128. |
| CheckQueue.NoServerIsCheckedTwice | internal/server/server_info.go:265-308 | No server is checked by two workers, checked and queued, or queued twice. |
| CheckQueue.KeyTellsApart | internal/server/server_info.go:52-57 | Two servers share a key only if they have one name, up to blank names and "unknown". |
| CheckQueue.QueueIsFair | internal/server/server_info.go:265-308 | The server at position p is taken by the time p + 1 more were taken. |
| CheckQueue.PromiseIsKept | internal/server/server_info.go:169-197 | In every run, a caller told that its server is already being checked was told the truth (the mark is cleared by the worker holding the server) exactly if the mark was then with the queue or a worker, or the caller holding it enqueues as its next step, for which the queue has room; otherwise that caller found the queue full and takes the mark back. |
| CheckQueue.HolderDecides | internal/server/server_info.go:178-196 | The caller that holds a mark decides by its next step whether a worker or itself clears it. |
| CheckQueue.FullQueueBreaksAPromise | internal/server/server_info.go:169-197 | A run from the empty queue, filled with 128 servers, in which a second caller is told true and no worker ever takes the server. |
| CheckQueue.ServerChecks.EnsureRemoteCheck | internal/server/server_info.go:169-197 | Uninterrupted: accepted exactly if not in maintenance and pending already or room in the queue; the whole new map and queue. |
| CheckQueue.ServerChecks.CheckNext | internal/server/server_info.go:265-308 | Uninterrupted: the head is taken and its mark cleared. |
| ResourcePool.TrimIds | internal/dockerwatcher/watcher.go:270-285 | The trimmed non-blank ids in order. |
| ResourcePool.ResultIsIndependentOfSchedule | internal/dockerwatcher/watcher.go:286-347 | For every schedule and every placement of failures and cancellation: the context's error and no list, or exactly the fetched resource of every id in order. |
| ResourcePool.WholeCall | internal/dockerwatcher/watcher.go:270-347 | The whole call: an empty list when no id is left after trimming, else the resource of every non-blank id in input order or the context's error. |
| ResourcePool.CancelledByFailureOrCaller | internal/dockerwatcher/watcher.go:286-338 | The context ends exactly by a failed fetch or the caller's cancel. |
| ResourcePool.NoFailureNoError | internal/dockerwatcher/watcher.go:270-347 | If no fetch fails and nobody cancels, the complete list is returned. |
| ResourcePool.RunsAreShort | internal/dockerwatcher/watcher.go:286-338 | A run of the pool has at most 4n + 8 steps. |
| ResourcePool.NeverStuck | internal/dockerwatcher/watcher.go:286-338 | Until all workers are done some goroutine can move. |
| ContainerUpdate.RecreateContainer | internal/dockerwatcher/watcher.go:1218-1272 | Whatever call fails: at most one container is created and no other is touched; on success exactly stop, remove, create, start with name, host settings and networks kept. |
| ContainerUpdate.StopRemoveCreateStart | internal/dockerwatcher/watcher.go:1251-1271 | The calls in order, stop and start exactly if the container is to run, and their effect on the daemon. |
| ContainerUpdate.Replace | internal/dockerwatcher/watcher.go:1477-1503 | After the retry by image id: at most two recreations, the image applied is the new one or unknown, the replacement keeps name and settings and is configured with the old reference after one recreation, with the image id after two. |
| ContainerUpdate.Retry | internal/dockerwatcher/watcher.go:1485-1503 | Succeeds only if the second container really runs the new image. |
| ContainerUpdate.UpdateContainer | internal/dockerwatcher/watcher.go:1386-1543 | Not updated without an error only if the container was paused, its reference means no new image, or it was neither running nor forced nor allowed when stopped, and then nothing was stopped, removed or created; updated means the new image applied or unknown, one or two recreations, name kept, image reference as for Replace, started exactly if it was running or start was forced; an update that is due and meets no obstacle is made; other containers are never touched. |
| ContainerUpdate.UpdateInspected | internal/dockerwatcher/watcher.go:1392-1543 | The same once the container is inspected. |
| ContainerUpdate.DueHappens | internal/dockerwatcher/watcher.go:1444-1476 | There are such updates: a running container whose reference means another image. |
| ContainerUpdate.Apply | internal/dockerwatcher/watcher.go:1477-1543 | An update that is due: every failure point, and what was changed up to it. |
| ContainerUpdate.TwoRecreations | internal/dockerwatcher/watcher.go:1477-1503 | Two recreations in a row have the promised combined effect. |
| LogLines.LinesAreTheStream | internal/dockerwatcher/watcher.go:1697-1711 | Lines and rest put together are the stream, and no line or rest holds a newline. |
| LogLines.SplitInTwo | internal/dockerwatcher/watcher.go:1697-1711 | Splitting a stream in two steps, with the leftover put before the second part, gives the lines and rest of the whole. |
| LogLines.ChunkIndependence | internal/dockerwatcher/watcher.go:1697-1711 | However the stream is cut into writes, the messages and the leftover are those of one write. |
| LogLines.PlainLinesAreLogged | internal/dockerwatcher/watcher.go:1697-1711 | Of a text made of non-blank lines without returns at their ends exactly these lines are logged, in order, and nothing is left over. |
| LogLines.ReturnsAndBlanks | internal/dockerwatcher/watcher.go:1703-1708 | Returns at the end of a line are dropped, and a line blank without them is not logged. |
| LogLines.LogLineWriter.Write | internal/dockerwatcher/watcher.go:1697-1711 | The messages logged and the buffer left are those of the split of buffer and input. |
| LogLines.LogLineWriter.Flush | internal/dockerwatcher/watcher.go:1713-1719 | The trimmed remainder is logged if not blank, and the buffer is empty. |
| LogChunks.Write | internal/server/containers_logs.go:220-244 | The chunks are the first n bytes, each of 1 to 32 KiB; for valid UTF-8 every chunk is valid UTF-8 and there is no encoding error; an encoding error means 32 KiB without a place to cut. |
| LogChunks.CutAtRuneStart | internal/server/containers_logs.go:227-235 | Cutting valid UTF-8 (sections 3 and 4 of RFC 3629) at a byte that starts a character leaves two valid texts. |
| LogChunks.RuneStartNearby | internal/server/containers_logs.go:227-235 | In valid UTF-8 one of any four neighbouring bytes starts a character. |
| LogChunks.ChunkSize | internal/server/containers_logs.go:227-235 | The inner loop ends at the last place to cut, at most three bytes before the limit in valid UTF-8. |
| ComposeOutput.ComposeOutput.Write | internal/server/compose_output.go:20-34 | The buffer is the last min(total, 65536) bytes of all written, and truncated holds exactly if more were written. |
| ComposeOutput.ComposeOutput.WriteAll | internal/server/compose_output.go:20-34 | The same after any sequence of writes. |
| EnvFile.SanitizeEnv | internal/server/stacks.go:733-762 | The loop gives the joined kept lines and the rejected ones with their numbers. |
| EnvFile.EveryLineIsAccountedFor | internal/server/stacks.go:736-760 | Every line is kept or rejected, at its place in order in one of the two lists, and the lists hold nothing else. |
| EnvFile.EntryIsKept | internal/server/stacks.go:736-760 | A line made of a valid key with blanks around, an equals sign and any value is kept, without the blanks and with the value unchanged. |
| EnvFile.WhatIsRejected | internal/server/stacks.go:736-760 | Any other line that is neither blank nor a comment is rejected if it holds a NUL, no equals sign or a key that is none, with the key if it has one. |
| EnvFile.BlanksAndCommentsAreKept | internal/server/stacks.go:739-743 | Blank lines and comments are kept as they are. |
| EnvFile.SanitisedIsValid | internal/server/stacks.go:725-762 | Sanitising any output again rejects nothing. |
| EnvFile.SanitisingTwice | internal/server/stacks.go:733-762 | The second pass reproduces the text exactly if no kept line but the last ends in a carriage return. |
| Versions.ParseSemverParts | internal/server/release_check.go:417-439 | The loop parses all dot-separated parts or none. |
| Versions.CompareSemver | internal/server/release_check.go:441-463 | The loop decides as the first differing component does. |
| Versions.PartsAreOrdered | internal/server/release_check.go:441-463 | Comparing dotted numbers is a total preorder in which missing components equal zero. |
| Versions.CompareIsAntisymmetric | internal/server/release_check.go:335-402 | On all strings, swapping the arguments negates the answer. |
| Versions.CompareIsByRank | internal/server/release_check.go:335-402 | Blank < bare dev < dev with suffix < release, numbers by components, names by text, unless a number meets a name of its level. |
| Versions.CompareIsTransitive | internal/server/release_check.go:335-402 | The order is transitive on versions that do not mix numbers and names of one level, so on blanks, dotted integers, dev and dev with dotted integers. |
| Versions.EqualVersions | internal/server/release_check.go:335-402 | Versions compare equal exactly at equal rank up to trailing zero components. |
| Versions.IntegerIsDotted | internal/server/release_check.go:381-402 | A whole number is a dotted number, so the integer branch is never reached. |
| Versions.MixedVersionsCycle | internal/server/release_check.go:335-364 | 2 < 10 < 1x < 2. |
| VersionTexts.SpelledIsRanked | internal/server/release_check.go:366-439 | Decimal numbers joined by dots, with or without a leading v, alone or after dev, dev- or dev_, with white space around, are read as these numbers. |
| VersionTexts.NumbersCompare | internal/server/release_check.go:335-402 | Two releases so spelled, or two development versions, compare by the first number that differs, missing ones being zero; every development version is below every release. |
| VersionTexts.BareVersionsCompare | internal/server/release_check.go:335-402 | A blank version is below a bare dev, and that below all numbers. |
| VersionTexts.SelectLargest | internal/server/release_check.go:294-323 | On releases whose versions spell numbers the choice has the largest of all it could choose from. |
| Versions.FilterReleases | internal/server/release_check.go:294-312 | Exactly the releases of the channel that are no drafts, in their order and as often. |
| Versions.SelectRelease | internal/server/release_check.go:294-323 | The choice is of the channel if it has any, and a maximum of the candidates when their versions are comparable. |
| Versions.FirstIsMaximum | internal/server/release_check.go:313-323 | The head of a list whose neighbours descend is a maximum. |
| Versions.SortingIsPossible | internal/server/release_check.go:313-323 | Insertion by compareVersions is a sort as asked of the library, on all releases. |
| Versions.SelectByInsertion | internal/server/release_check.go:294-323 | With that sort the choice is a maximum of the releases of its kind. |
| ResourceCache.HitsAndMissesPartition | internal/server/containers_resources_cache.go:14-44 | Hits and missing ids together are the requested ids, each as often. |
| ResourceCache.HitsAreLastStored | internal/server/containers_resources_cache.go:14-44 | Every hit is the value last stored for its scope and id and not over age; an id is missing exactly if it was asked for and nothing was stored or what was is over age. |
| ResourceCache.LastStoreWins | internal/server/containers_resources_cache.go:46-68 | The last store of an id under a scope counts, the last resource of a batch if it holds several, and other stores change nothing. |
| ResourceCache.NormalizeIds | internal/server/containers_resources.go:130-145 | The loop gives the distinct trimmed ids in order of first appearance. |
| ResourceCache.NormalizedIsDistinct | internal/server/containers_resources.go:130-145 | No id twice, and exactly the non-blank trimmed ids asked for. |
| ResourceCache.NormalizedKeepsOrder | internal/server/containers_resources.go:130-145 | The ids keep the order of their first appearance. |
| ResourceCache.Cache.Get | internal/server/containers_resources_cache.go:14-44 | Hits and misses in order as specified from the history of stores; a refresh is needed exactly if something is missing or stale or nothing was asked. |
| ResourceCache.Cache.Set | internal/server/containers_resources_cache.go:46-68 | The nested maps again agree with the last store of every scope and id. |
| ResourceCache.Cache.ShouldRefresh | internal/server/containers_resources_cache.go:70-86 | One call of the throttle: granted or not, and the marks left. |
| ResourceCache.GrantsAreApart | internal/server/containers_resources_cache.go:70-86 | Over every sequence of calls, any two granted refreshes of a scope are at least the interval apart, on readings in any order. |
| ResourceCache.GrantedIff | internal/server/containers_resources_cache.go:70-86 | A refresh is granted exactly if it names a scope and lies at least the interval after every one granted before. |
| ResourceCache.Cache.Request | internal/server/containers_resources.go:108-128 | The response and the new cache in every case, whatever others store while the fetch is under way; if the fetch returns one resource per missing id, the response's ids are the requested ones, each once. |
| ResourceCache.Cache.Refresh | internal/server/containers_resources.go:111-119 | A background refresh stores what it fetched, and nothing on error. |
| ResourceCache.CompleteResponseHasEachOnce | internal/server/containers_resources.go:108-145 | A complete response holds each distinct requested id exactly once and no other. |
| ScanStates.ScanKeyTellsApart | internal/server/server.go:180-188 | Two servers share a key only if they are of one kind and one name, up to blank names and "unknown". |
| ScanStates.StatesAreWellTimed | internal/server/server.go:190-267 | Over every run whose readings are in the order of the lock: active states have a start and no end, terminal states 0 < start <= end, idle states neither, and no time lies ahead of the clock. |
| ScanStates.PhaseIsLastWritten | internal/server/server.go:190-267 | The phase shown is the one last written, except that a stop request turns an active one into cancelled. |
| ScanStates.ScanTimes | internal/server/server.go:190-210 | In every run a scan starts at the write that made it active and ends at the write that ended it, if nothing touches its key in between. |
| ScanStates.WellTimedUnlessLate | internal/server/server.go:190-267 | Over every run with readings in any order: all states are well timed throughout exactly if no event ends a scan that started after its reading. |
| ScanStates.LateWriteEndsBeforeStart | internal/server/server.go:190-210 | Two racing writes that leave a scan finished before it started. |
| ScanStates.NothingActiveAfterStop | internal/server/server.go:252-267 | A stop request keeps the start of what was active and leaves the rest unchanged. |
| ScanStates.StopHolds | internal/server/server.go:252-267 | In every run nothing is active after a stop request until a writer starts the key again. |
| AutoUpdates.BuildScanSummary | internal/server/server.go:1843-1875 | Every counter of the summary is the number of containers of its kind, and every list holds their names in order. |
| AutoUpdates.MarkContainer | internal/server/server.go:2222-2238 | Only the first container with the id is marked. |
| AutoUpdates.OneTargetMarked | internal/server/server.go:2202-2217 | Marking one more target changes only it: the number detected and the number failed stay, the number remaining drops exactly if it was updated. |
| ScanRuns.TouchedServersHaveAPhase | internal/server/server.go:1369-1450 | Whoever was not skipped is left in the phase of its own fate or of a later server with the same key. |
| ScanRuns.EveryoneEndsTerminal | internal/server/server.go:1369-1450 | No server outside maintenance is left pending, scanning or updating. |
| ScanRuns.FindLocalScan | internal/server/server.go:2478-2485 | The first local result with the name up to case, exactly if there is one. |
| ScanRuns.RecordedIsFound | internal/server/server.go:1475-1495 | A recorded result answers for its server from then on and changes no other's. |
| ScanRuns.RecordedHasNoDuplicates | internal/server/server.go:1475-1495 | Recording never gives a server two results. |
| ScanRuns.RemoteResultsKeepLocals | internal/server/server.go:1475-1495 | A remote result never displaces a local one. |
| ScanRuns.Scanner.SetScanState | internal/server/server.go:190-214 | One write step, and the times stay in order. |
| ScanRuns.Scanner.CancelActiveScanStates | internal/server/server.go:252-267 | Visiting the map in any order makes one cancel step. |
| ScanRuns.Scanner.ResetScanStates | internal/server/server.go:216-228 | One reset step of all configured keys. |
| ScanRuns.Scanner.SetAllScanStates | internal/server/server.go:230-250 | Exactly the servers not in maintenance, and online if remote, get the phase. |
| ScanRuns.WhoIsAwake | internal/server/server.go:235-249 | These are the servers not in maintenance and online. |
| ScanRuns.Scanner.AutoUpdateLocal | internal/server/server.go:2179-2220 | An error is returned only if the watcher could not be opened or the context was cancelled; otherwise every target has what its own update answered and everything else is as it was, so detected and failed counts are conserved, and remaining plus updated is what remained. |
| ScanRuns.Scanner.UpdateTargets | internal/server/server.go:2203-2217 | The loop goes on after a failed update, and stops only for a cancelled context. |
| ScanRuns.Scanner.AskLocal | internal/server/server.go:1403-1446 | The scan and its updates: the error that either returned, or the result that follows from the answers. |
| ScanRuns.Scanner.ScanServer | internal/server/server.go:1401-1449 | The fate, the result and the final state of one server follow from the answers, for every outcome of its scan and updates, and nothing else changes. |
| ScanRuns.Scanner.RunScan | internal/server/server.go:1351-1470 | Refused exactly if a scan or update runs; otherwise one fitting result per configured server in order, names up to case, wherever cancellation strikes; each fate follows from the answers left when the server is reached; after the first server cut short none is started; every server outside maintenance ends terminal, done only without an error; all other states are unchanged. |
| ScanRuns.LocalFateFollows | internal/server/server.go:1401-1449 | Of every local server not cut short: left in error exactly if its scan call failed or reported an error or its watcher could not be opened, done otherwise; a failed update changes nothing. |
| ScanRuns.Scanner.CancelRest | internal/server/server.go:1372-1384 | Every server not reached gets a result and ends cancelled. |
| ScanRuns.Scanner.UpdateLastScans | internal/server/server.go:1475-1495 | The loop records the result in its place, carrying its scan state. |
| ScanRuns.Scanner.TriggerRemoteScans | internal/server/server.go:1719-1793 | Successes, failures, cancellations and the two kinds of skipped add up to the remotes; each counter counts its kind; every fate follows from the configuration and the agent's answers; states and recorded results, with their error, follow each remote's fate; local results stay. |
| ScanRuns.RemoteIsDoneUnlessACallFailed | internal/server/server.go:1748-1785 | The last attempt at a remote leaves it done exactly if neither the scan call nor an update nor the wait for a restarted agent returned an error; its recorded error is then that of the last status that confirmed a restart, or of the scan's answer if none did, so it is done with an error exactly if that answer carried one. |
| ScanRuns.LocalIsDoneWithoutError | internal/server/server.go:1369-1450 | After a scan of all local servers, whoever has the last say on its key is done only without an error in its result. |
| ScanRuns.RemoteDoneWithError | internal/server/server.go:1748-1785 | A remote scan whose agent answers with an error of its own is left done. |
| ScanRuns.RestartBringsError | internal/server/server.go:2029-2037 | A scan without an error whose update restarts the agent, which then reports one, is left done with it. |
| ScanRuns.RestartClearsError | internal/server/server.go:2029-2037 | A scan with an error that the restarted agent no longer reports is left done without one. |
| RemoteAnswers.OwnErrorIsLastStatus | internal/server/server.go:2002-2044 | Over all targets and answers: the error of the result is that of the last confirmed status, or the scan's own. |
| RemoteAnswers.AgentsLastIsStable | internal/server/server.go:1996-1998 | The updates go through a permutation of the targets in which no agent precedes a container that is none, and those of one kind keep their order. |
| RemoteAnswers.WhoIsAgent | internal/server/server.go:2049-2057 | An agent is the agent's own container, or one named as an agent of contiwatch or as an agent with a contiwatch image, in whatever case. |
| RemoteAnswers.PlainUpdatesNeverFail | internal/server/server.go:2014-2044 | Updates none of which restarts the agent never return an error, however many fail, and keep the scan's error. |
| ScanRuns.FailedUpdateBeforeAgent | internal/server/server.go:1996-2044 | A remote whose container's update breaks off before the agent is updated is left done. |
| ScanRuns.Scanner.AutoUpdateRemote | internal/server/server.go:1976-2047 | The loop over the targets, agents last: the error returned, the error of the result, the number updated and the answers read, wherever an update fails, restarts the agent or is cancelled. |
| ScanRuns.Scanner.UpdateOne | internal/server/server.go:2006-2043 | One turn: a failed update marks its container with the error and goes on, a restart goes on with the confirmed status or ends the updates, any other marks its container as answered. |
| ScanRuns.Scanner.WaitForConfirmation | internal/server/server.go:2077-2104 | A status is taken exactly if it shows the target, by name or id, updated and up to date. |
| ScanRuns.CountersAddUp | internal/server/server.go:1719-1788 | The three counters leave out just the remotes in maintenance and those not online. |
| ScopedRefresh.AtMostOneRequest | web/static/app.js:3974-3986 | In every state of every run at most one request is in flight, exactly while the flag is set. |
| ScopedRefresh.RenderedIsSelected | web/static/app.js:5904-5935 | Whatever is put on screen is the loading note or belongs to the server selected at that moment. |
| ScopedRefresh.AnswerIsShown | web/static/app.js:5911-5935 | An answer for the selected server is what is shown, its rows, none, or its error, until another answer comes or another server is selected. |
| ScopedRefresh.StepKeepsInv | web/static/app.js:3974-3986 | A step keeps the guard's invariant exactly unless it lets the options switch back in the gap before a finally block. |
| ScopedRefresh.QuietPageIsRight | web/static/app.js:3968-3986 | In every run in which options change only while no answer waits for its finally block: once nothing is in flight after a refresh was asked for, rows or error are the selected server's. |
| ScopedRefresh.QuietViewIsRight | web/static/app.js:3968-3986 | The same with options changing at any time, as long as no such switch happened. |
| ScopedRefresh.SlipNeverLoads | web/static/app.js:5529-5540 | Beyond what a browser does: a run of the model with such a switch that ends on the loading note with nothing in flight. |
| ScopedRefresh.ClicksNeverShowAnother | web/static/app.js:5507-5526 | While only clicks change the selection, another server's data is never on screen. |
| ScopedRefresh.PageConverges | web/static/app.js:3974-3986 | If the selection stays, the page is quiet and right after at most two answers and their finally blocks, and not before they came. |
| ScopedRefresh.ViewConverges | web/static/app.js:3974-3986 | The same with options changing at any time, as long as no such switch happened. |
| ScopedRefresh.NeverStuck | web/static/app.js:3974-3986 | While a request is outstanding an answer or a finally block can come. |
| ScopedRefresh.View.RefreshContainers | web/static/app.js:5899-5909 | One refresh step on the page's variables. |
| ScopedRefresh.View.LoadContainers | web/static/app.js:5911-5935 | One answer step: rendered only for the selected server. |
| ScopedRefresh.View.Finally | web/static/app.js:3980-3985 | One finally step: the flag is cleared, and another request starts if the selection changed. |
| ScopedRefresh.View.Click | web/static/app.js:5507-5526 | One click step: old rows are dropped at once if the server changed. |
| ScopedRefresh.View.UpdateOptions | web/static/app.js:5529-5540 | The selection stays if still offered, else the first option; refreshed if the view is visible. |

## Left out

- HTTP handlers, JSON, routing, forwarding between controller and agent, file storage, the cron parser, Discord messages and log texts: plumbing or formatting.
- The Docker SDK, `docker compose`, WebSockets and the network: any answer is possible.
- Hashing, random tokens, PIN comparison and the minimum response delay: tokens are fresh, timing is not modelled.
- Clock differences between controller and agent: both read one clock.
- Floating-point rounding in the token bucket: tokens and seconds are reals.
- Sessions without a done channel: the server never creates one.
- Parsing of addresses by `netip`: `PinAttempts.ClientAddress` takes parsed addresses, whose text is never blank.
- The Checking flags and subscribers of the server info map: the map is replaced from an earlier snapshot, so no invariant ties it to the pending marks.
- The link between `scanCancel` and the running scan, and states after a refused scan request: the handler overwrites both before it looks for a conflict.
- Writers of scan states and of the last results while a scan runs: `ScanRuns.Scanner.RunScan` and `ScanRuns.Scanner.TriggerRemoteScans` are uninterrupted; runs of single writes are in `ScanStates`.
- ScanRuns.Scanner.AutoUpdateRemote: says of single containers only what each turn leaves (`UpdateOne`), not their sum over all turns; the policy sync before a scan has no effect on it and is left out.
- ScanRuns.Scanner.WaitForConfirmation: reads only the last status before the wait is over; polls before it change nothing.
- ScanRuns.FindLocalScan: the folding of single characters is a parameter.
- ScanRuns.Scanner.ScanServer: leaves out notifications and the log.
- Versions.SelectRelease: takes `sort.Slice` as any function that returns a permutation whose neighbours descend when the versions are comparable.
- Versions.CompareIsTransitive: goes one way, since a mixed set may be in order by chance.
- ResourceCache.Cache.Request: another request's refresh mark between its read and its own is left out; it starts after the scope is parsed; the local and the remote handler differ only in the fetch.
- CheckQueue.ServerChecks.EnsureRemoteCheck: describes an uninterrupted call; interleavings are the state machine of the same module.
- CheckQueue.ServerChecks.CheckNext: describes an uninterrupted turn, as above.
- ScopedRefresh.SlipNeverLoads: the schedule is not claimed to occur in a browser; the model lets options change in more places than the page does.
- StackJobs.StackJob.Extend: describes an uninterrupted call; interleavings with the agent are in `RemoteStackJobs`.
- The other four tables of the page use the same guard and are not repeated; the status line, resource columns and search are left out.
