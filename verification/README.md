# Verified models of the SSHelter relay and desktop core

A Dafny 4.11 model of the parts of SSHelter (Lunport) whose correctness depends on more than one
function: the sync relay (a small store that any number of devices drive with compare-and-set pushes
and cursor pulls) and six pieces of the desktop app. `dafny verify dfyconfig.toml` checks everything.

| module | file | what it models |
|---|---|---|
| `Runs` | Runs.dfy | runs of a state machine, shared by the protocols |
| `FixedWindow` | relay/FixedWindow.dfy | counting in fixed windows, shared by both limiters |
| `ChainModel` | relay/ChainModel.dfy | one chain as a value, every request as a step |
| `ChainRuns` | relay/ChainRuns.dfy | properties of whole runs: replicas, updates, freezing, retries, deadlines, rates |
| `ChainExamples` | relay/ChainExamples.dfy | runs, step by step, in which an expectation fails |
| `ChainAnswers` | relay/ChainAnswers.dfy | what is answered and kept, said through fields and tokens alone |
| `ChainStores` | relay/ChainStore.dfy | the chain object and its methods, proved to be those steps |
| `IpLimiters` | relay/IpLimiter.dfy | the limiter object, and a limiter that never clears |
| `BatchPulls` | relay/BatchPull.dfy | one request over many chains |
| `McpApproval` | desktop/McpApproval.dfy | approval and cancellation as interleaved lock-sized steps |
| `McpDecisions` | desktop/McpDecisions.dfy | what a request is decided, and by which step |
| `HostStart` | desktop/HostStart.dfy | starting the host once |
| `ShellQuoting` | desktop/ShellQuoting.dfy | quoting for a shell inside an AppleScript literal |
| `KnownHosts` | desktop/KnownHosts.dfy | listing, removing and appending lines |
| `WritePolicies` | desktop/WritePolicy.dfy | destination projection over a file system with links |
| `LogRotation` | desktop/LogRotation.dfy | the rotated log |

## Assumptions

- Every Durable Object method is one atomic step. `pull` reads `latest_seq` after an `await`
  (relay/src/index.ts:196-197), so for pulls this rests on the runtime's input gates, which keep other
  requests out while storage is awaited.
- Times are inputs. Where a result needs it, times do not go back and an alarm fires no earlier than it
  is scheduled; both are stated as conditions of that result. All times of one request are the same.
- Validated strings are ASCII (strict base64), so SQLite's LENGTH and JavaScript's length agree; both
  are the length of a Dafny string.
- Each step of the MCP and start protocols is one critical section, one send or one look. A time limit
  is a step that may happen at any moment.
- A host that answers keeps answering (`HostStart`), and the log's file operations succeed (`LogRotation`).

## Where the code does less than one might expect

- relay/README.md:105 promises 120 requests a minute per chain, and 20, 1200 and 12000 an hour per IP.
  The windows are fixed, so an interval that straddles two of them can admit more: up to twice the
  limit less one, which is reached (`Reaches239` is a run with 239 requests in a minute). The promised
  number is kept from a moment on, whatever comes, if and only if at that moment the window has only just
  started, is over, or has nothing left (`Promised120Iff`, `PromisedHourIff`). Creations and pulled
  chains are always charged together with a request, so an exhausted request window that does not end
  first keeps their limit too, and that is the only exception (`WorkerHourIff`); still, 39 creations in
  an hour are possible (`Reaches39Creations`). A new instance has a
  window that started at the epoch, so 240 are possible with a clock in its first minute
  (`Reaches240`).
- The flag is checked again after the sender is in `pending` so that a cancel still wakes the waiter
  (src-tauri/src/mcp.rs:900-902). It does, but not always by the time the cancel call returns: with two
  cancel calls, one can complete while the other has taken the sender and not used it yet
  (`CompletedCancelAndEmptyChannel`). `NoCancellationLost` says exactly when: a cancelled request waits
  on an empty channel if and only if some client's call that concerns it is still under way, and
  `CancellationArrives` shows that call's next one or two steps wake it.
- A cancel call finds the sender by id only, so it can cancel a request that nobody cancelled, if the
  one it marked finished and its id was used again (`CancelReachesAnother`). The sender it takes is
  that of the marked request if and only if that request had registered when the call marked
  (`TakenIsMarkedIff`).
- Resending an answered batch is answered 200 again, and leaves the store as it is if and only if every
  accepted item's base number is below the number it was given (`ResendHarmlessIff`). The relay does not
  check base numbers against the latest one, so a client that invents a larger one overwrites its own row
  again (`InventedBaseIsAcceptedAgain`).
- At most one host is started if and only if all calls are of one process or all of them can lock the
  file (`StartsOnceIff`): any two calls of different processes of which one cannot lock the file can
  both start one (`TwoStartsWithoutACommonLock`). That takes hosts that come up before their starter
  stops waiting; in general there is at most one start more than waits that ended with no host
  answering (`StartsAndLostWaits`). The comment at src-tauri/src/host_start.rs:92-96 says
  that the lock is then skipped.
- A replica does not learn of the DELETE of a frozen chain (`ReplicaOutlivesTable` is a run). After any
  pull within a lifetime it equals the table if and only if it was empty at every DELETE so far
  (`ReplicaAgreesIff`).
- Numbers start again when a chain is deleted and created anew. A client refuses a pull only if the latest
  number fell below its cursor (src-tauri/src/sync/record_merge.rs:671), so a replica that keeps its
  cursor can take in a pull of the new lifetime and miss its rows (`ReplicaMissesLifetime`). In every run,
  over any number of lifetimes, it agrees after a pull if and only if, before it, it held no row that is
  not stored and every stored row numbered up to where the pull asked (`AgreesAcrossLifetimesIff`).
- A joined command line is read as exactly its words, but a shell runs it as that command if and only if
  the first argument is not a bare word that looks like an assignment or is a reserved word
  (`ShellRunsIff`): `A=1 ls` sets A and runs ls (`AssignmentExample`), and `if` runs nothing
  (`ReservedWordExample`). kitty and foot get the command without a separator and take one that starts
  with a dash for an option (`OptionExample`, and the condition in `LaunchDeliversArgv`).

## Model

| member | source | states |
|---|---|---|
| `FixedWindow.AtMostTwiceTheLimit` | relay/src/index.ts:133-141 | from any window and over every nondecreasing run of calls with any costs, at most twice the limit is admitted in any half-open interval as long as a window |
| `FixedWindow.BelowTwiceTheLimit` | relay/src/index.ts:133-141 | from a window that was charged or is over at the first call, and with calls that cost something, at most twice the limit less one |
| `FixedWindow.BelowTwiceIsReached` | relay/src/index.ts:133-141 | that bound is reached, for every limit and width and from every time at which the window is over |
| `FixedWindow.LimitKeptIff` | relay/src/index.ts:133-141 | every continuation admits at most the limit in the interval that begins now if and only if the window has only just started, is over, or has nothing left |
| `ChainModel.BytesRemove` | relay/src/index.ts:148-155 | the SUM over the table does not depend on the order of rows: any row can be taken out first |
| `ChainModel.BytesUpdate` | relay/src/index.ts:228-234 | replacing or adding one row changes the SUM by exactly the sizes taken off and added |
| `ChainModel.WrittenIsNewer` | relay/src/index.ts:205-252 | a push keeps every row or replaces it by one numbered above the old latest number, removes none, and leaves numbers unique and at most the new latest one |
| `ChainModel.WrittenAt` | relay/src/index.ts:238-252 | with distinct ids, after the push each accepted item's row is stored with the number it was answered, and each refused item's row is as before |
| `ChainModel.WrittenElsewhere` | relay/src/index.ts:238-252 | rows that the batch does not name are untouched |
| `ChainModel.StepKeepsInv` | relay/src/index.ts:172-274 | every request and the alarm keep unique numbering, both quotas, and an alarm exactly while the chain exists |
| `ChainRuns.RunKeepsInv` | relay/src/index.ts:172-274 | every reachable chain has unique numbers, at most 1,048,576 bytes and 4096 rows |
| `ChainAnswers.QuotasHold` | relay/src/index.ts:223-235 | every reachable table has at most 1,048,576 bytes and 4096 rows |
| `ChainAnswers.ServedIff` | relay/src/index.ts:113-118 | in every run, a request is answered 404 if and only if its token is not the stored one, or the chain does not exist and the request is no PUT; it then changes nothing, not even the minute window |
| `ChainAnswers.CreatedWith` | relay/src/index.ts:173-181 | a chain begins with a PUT answered 201, empty, unfrozen, with the token and the time of that PUT |
| `ChainAnswers.TokenOfLifetime` | relay/src/index.ts:172-187 | every chain there is goes back to one PUT answered 201, whose token and time it keeps all its lifetime |
| `ChainAnswers.AdmittedIsAnswered` | relay/src/index.ts:172-198 | a served request is answered 429 if and only if it is beyond the 120th of its window; below that a PUT is answered 201 or 200 as the chain is new or not, a pull with rows, a freeze and a DELETE with 204 |
| `ChainAnswers.PushIsAnswered` | relay/src/index.ts:200-235 | an admitted push is answered 409 if and only if the chain is frozen, 413 if and only if otherwise the table it would leave exceeds 1,048,576 bytes or 4096 rows, and refused it leaves the store as it was |
| `ChainAnswers.RefusedChangesNothing` | relay/src/index.ts:172-269 | a request answered 404, 409, 413 or 429 changes neither the store nor the alarm |
| `ChainAnswers.Endings` | relay/src/index.ts:126-131 | a freeze only freezes; a DELETE takes just the rows of a frozen chain and everything of any other; the idle alarm takes everything |
| `ChainAnswers.ItemIsAnswered` | relay/src/index.ts:212-221 | an item is refused, with the stored row, if and only if its record is stored under a number above its base number |
| `ChainAnswers.AcceptedIsStored` | relay/src/index.ts:238-251 | after the step that accepts an item, the row under its id has the item's kind, nonce, ciphertext and deleted flag, and the answered number |
| `ChainAnswers.PulledAsPushed` | relay/src/index.ts:189-255 | what is pushed is what is pulled: an accepted item comes back field by field from every later pull from below its number, unless a DELETE or a newer accepted item came between |
| `ChainAnswers.NumbersHaveNoGaps` | relay/src/index.ts:218-219 | an accepted item gets the latest number plus how many items were accepted up to it, and the latest number grows by how many were accepted |
| `ChainAnswers.NumbersAscend` | relay/src/index.ts:212-221 | accepted items of a push are numbered in their order, above the old latest number and up to the new one |
| `ChainRuns.ReplicaConverges` | relay/src/index.ts:189-255 | within one lifetime and before an answered DELETE, a replica takes in every pull it asks for and equals the table after it, whatever all clients did in between |
| `ChainRuns.DeleteIsNotPulled` | relay/src/index.ts:257-265 | after a DELETE that does not end the lifetime, the table stays empty and every replica keeps its rows, over every run |
| `ChainRuns.ReplicaAgreesIff` | relay/src/index.ts:189-265 | within one lifetime, after any pull it asks for, a replica equals the table if and only if it was empty at every DELETE so far |
| `ChainExamples.ReplicaOutlivesTable` | relay/src/index.ts:257-265 | for any token, item and time, a run (create, push, pull, freeze, delete, pull) after which the replica holds a row that the table has no more |
| `ChainRuns.OverlayAgreesIff` | relay/src/index.ts:192-197 | one pull makes any rows equal to the table if and only if they hold nothing else and all rows numbered up to where it asked |
| `ChainRuns.AgreesAcrossLifetimesIff` | relay/src/index.ts:172-274 | in every run, over any number of lifetimes, a replica equals the table after a pull it takes in if and only if it covered the table up to where the pull asked |
| `ChainExamples.ReplicaMissesLifetime` | src-tauri/src/sync/record_merge.rs:661-676 | for any token, time and two different items, a run (create, push, pull, delete, create, push, pull) in which the client takes in the last pull and keeps the old row instead of the new one |
| `ChainRuns.LifetimeEvolves` | relay/src/index.ts:189-269 | between two states of one lifetime, rows are the same or numbered above the earlier latest number, unless a frozen chain was emptied |
| `ChainRuns.NoLostUpdate` | relay/src/index.ts:205-221 | an accepted item whose base number is that of an earlier version of its record replaces exactly that version |
| `ChainRuns.BaseZeroOnlyCreates` | relay/src/index.ts:212-221 | an item with base number 0 is accepted if and only if its record does not exist |
| `ChainRuns.FreezeIsFinal` | relay/src/index.ts:120-131 | without the idle alarm a frozen chain keeps its freeze, token and latest number; its table stays or becomes empty; nothing is pushed and no PUT is answered 201, also after DELETE |
| `ChainRuns.RetryConflictsIff` | relay/src/index.ts:205-221 | against the table it wrote, a batch conflicts in every item if and only if every accepted item's base number is below the number it was given |
| `ChainRuns.ResendHarmlessIff` | relay/src/index.ts:200-255 | a batch answered 200 and sent again as the next step, authorized and not limited, is answered 200 again, and leaves the store unchanged, or is refused item by item, if and only if every accepted item's base number is below the number it was given |
| `ChainExamples.InventedBaseIsAcceptedAgain` | relay/src/index.ts:212-221 | for any token, time and item with a base number that was never given out: sent twice, it is written twice |
| `ChainRuns.RetryIsHarmless` | relay/src/index.ts:200-255 | with base numbers up to the latest one, resending an answered batch is answered 200 with all conflicts carrying the stored rows, and changes neither table nor latest number |
| `ChainRuns.IdleDeadline` | relay/src/index.ts:162-169 | no chain expires sooner than 15,552,000,000 - 21,600,000 ms (180 days less 6 hours) after a successful create, pull or push |
| `ChainRuns.ReadsRefreshRarely` | relay/src/index.ts:157-169 | an answered pull sets the alarm if and only if more than 6 hours have passed since it was last set |
| `ChainRuns.AtMost240PerMinute` | relay/src/index.ts:133-141 | from any window, one chain instance lets at most 240 requests through in any closed interval of 60,000 ms, across DELETE and PUT |
| `ChainRuns.AtMost239PerMinute` | relay/src/index.ts:133-141 | from a window that was charged or is over, as that of a new instance is from 60,001 ms after the epoch on, at most 239 |
| `ChainRuns.Reaches239` | relay/src/index.ts:133-141 | a run of a new chain that lets 239 requests through in a minute |
| `ChainRuns.Reaches240` | relay/src/index.ts:133-141 | a run of a new chain, with a clock in the first minute after the epoch, that lets 240 through |
| `ChainRuns.Promised120Iff` | relay/src/index.ts:133-141 | every continuation of a state lets at most 120 requests through in the minute that begins now if and only if the window has only just started, is over, or has nothing left |
| `ChainStores.NoRepeatsIffDistinct` | relay/src/index.ts:513 | comparing the size of the set of ids with their number finds repeated ids, and only those |
| `ChainStores.ChainStore.RateLimited` | relay/src/index.ts:133-141 | charges the minute window of the model and refuses exactly beyond 120 |
| `ChainStores.ChainStore.Touch` | relay/src/index.ts:162-169 | sets the alarm, for reads only when it is due for a refresh |
| `ChainStores.ChainStore.Create` | relay/src/index.ts:172-187 | is the model's step: 201, 200, 404 or 429 and the state that goes with it |
| `ChainStores.ChainStore.Select` | relay/src/index.ts:192-195 | returns exactly the rows numbered above `since`, in increasing order |
| `ChainStores.ChainStore.Pull` | relay/src/index.ts:189-198 | is the model's step: the selection with the latest number, or 404 or 429 |
| `ChainStores.ChainStore.Existing` | relay/src/index.ts:207-211 | the stored rows of the items, and nothing else |
| `ChainStores.ChainStore.Plan` | relay/src/index.ts:212-221 | each item's answer: the next number if accepted against the table before the push, the stored row if not |
| `ChainStores.ChainStore.Usage` | relay/src/index.ts:148-155 | the SUM and COUNT of the table |
| `ChainModel.PredictStep` | relay/src/index.ts:228-234 | with distinct ids, one accepted item changes bytes and count of the table being written as predicted from the table before the push |
| `ChainStores.ChainStore.Predict` | relay/src/index.ts:223-235 | quota prediction is exact: the numbers computed before writing are SUM and COUNT of the table after the write |
| `ChainStores.ChainStore.WriteRows` | relay/src/index.ts:238-251 | the write loop yields the table of the model |
| `ChainStores.ChainStore.Commit` | relay/src/index.ts:205-254 | the whole batch is written, or, over quota, 413 and nothing changed |
| `ChainStores.ChainStore.Push` | relay/src/index.ts:200-255 | is the model's step, in every branch |
| `ChainStores.ChainStore.Freeze` | relay/src/index.ts:126-131 | is the model's step |
| `ChainStores.ChainStore.Destroy` | relay/src/index.ts:257-269 | is the model's step: a frozen chain loses only its rows, any other everything but its minute window |
| `ChainStores.ChainStore.OnAlarm` | relay/src/index.ts:272-274 | is the model's step: everything stored is gone |
| `ChainStores.PostRecords` | relay/src/index.ts:510-518 | a batch that is empty, too long, has a repeated id or too large a record is refused without touching the chain; any other is the chain's own step |
| `IpLimiters.IpLimiter.AllowMany` | relay/src/index.ts:296-322 | charges all buckets, answers whether each stayed within its limit at its turn, and sets the alarm exactly when a window was opened |
| `IpLimiters.AllowsIff` | relay/src/index.ts:309-318 | a call is allowed if and only if, for every bucket it names, all it charges there keeps the window within 20, 1200 or 12000 |
| `IpLimiters.AlarmInvAfter` | relay/src/index.ts:288-322 | a set alarm is always the latest window start plus one hour |
| `IpLimiters.AlarmErasesNothingLive` | relay/src/index.ts:292-294 | in every timely run, every window is over when the alarm fires |
| `IpLimiters.ClearingIsInvisible` | relay/src/index.ts:281-327 | in every timely run, every answer equals that of a limiter that never clears |
| `IpLimiters.BucketWindow` | relay/src/index.ts:309-318 | several charges of one call act on a bucket's window as one charge of their sum |
| `IpLimiters.AtMostTwicePerHour` | relay/src/index.ts:296-327 | a bucket admits at most twice its limit in any half-open hour, clearing included |
| `IpLimiters.OccursAfter` | relay/src/index.ts:302-318 | every call and every alarm leaves windows that were charged or only filled in |
| `IpLimiters.BelowTwicePerHour` | relay/src/index.ts:296-327 | from such windows, and with calls that cost something, at most twice the limit less one |
| `IpLimiters.HourlyBounds` | relay/src/index.ts:278 | in numbers: at most 39 creations, 2399 requests and 23,999 pulled chains in any half-open hour |
| `IpLimiters.PromisedHourIff` | relay/src/index.ts:296-327 | over every timely continuation, with charges of any kind, at most the bucket's limit is admitted in the hour that begins now if and only if its window has only just started, is over, or has nothing left |
| `IpLimiters.WorkerHourIff` | relay/src/index.ts:435 | with the charges the worker makes, and in an hour that begins after every window did, the limit of creations or pulled chains is kept whatever comes if and only if the bucket's window is settled, or the request window is exhausted and does not end before it |
| `IpLimiters.Reaches39Creations` | relay/src/index.ts:471-474 | a run of a new limiter, with the worker's charges, that admits 39 creations in an hour |
| `BatchPulls.Ask` | relay/src/index.ts:446-450 | an entry reports its own chain's answer and the chain takes that step |
| `BatchPulls.EntrySays` | relay/src/index.ts:446-450 | an executed entry says not found for another token or no chain, rate limited beyond 120 in the window, and else carries exactly the rows above `since`, in order, and the latest number |
| `BatchPulls.EntryIsPull` | relay/src/index.ts:446-450 | an entry with rows is the chain's answer to a pull of its own |
| `BatchPulls.EntryCatchesUp` | relay/src/index.ts:446-450 | a replica that overlays the rows of an entry asked for from its cursor equals the table, as with pulls |
| `BatchPulls.TakeTurn` | relay/src/index.ts:446-452 | an executed item takes one step of its own chain and touches no other |
| `BatchPulls.BatchPull` | relay/src/index.ts:439-454 | results match items in length and order; executed prefix, never empty, and deferred suffix; executed entries before the last within the budget, deferral only beyond it; each executed item steps its own chain from whatever other requests left there, each deferred one changes nothing |
| `BatchPulls.UnnamedUntouched` | relay/src/index.ts:441-453 | with no other request in between, chains that are not named are as they were |
| `BatchPulls.QuietBatch` | relay/src/index.ts:441-453 | and with different chains every executed item reports its chain's answer in the state before the request, and chains of deferred items are as they were |
| `BatchPulls.CheckBody` | relay/src/index.ts:410-426 | 413 for a body that is too large, 400 unless it is 1 to 64 items of different chains |
| `BatchPulls.ChargesAre` | relay/src/index.ts:434-435 | a well-formed batch of n items costs one request and n pulled chains, any other body one request |
| `BatchPulls.PostPull` | relay/src/index.ts:432-455 | the limiter is charged once, malformed or not; 429 comes before 413 and 400; a refused request touches no chain; any other is the batch |
| `BatchPulls.RoundsFinish` | relay/src/index.ts:428-455 | every answer executes at least one item, so resubmitting only deferred items executes every item once, in the order first asked, within as many rounds as items |
| `McpApproval.StepKeepsInv` | src-tauri/src/mcp.rs:283-385 | every critical section and send keeps where each request's sender is: in `pending`, in one thread's hand, used once |
| `McpApproval.RunKeepsInv` | src-tauri/src/mcp.rs:283-385 | so does every interleaving of any number of requests and callers |
| `McpApproval.RunKeepsOwnHands` | src-tauri/src/mcp.rs:900-905 | a request that cancels itself takes no sender but its own |
| `McpApproval.NoCancellationLost` | src-tauri/src/mcp.rs:346-385 | in every reachable state a cancelled request waits on an empty channel if and only if a client's call that concerns it is still under way |
| `McpApproval.CancellationArrives` | src-tauri/src/mcp.rs:363-385 | then one or two steps of that client, neither of which can block, fill the channel |
| `McpApproval.CompletedCancelAndEmptyChannel` | src-tauri/src/mcp.rs:363-385 | a run with two cancel calls in which one has completed and the request still waits on an empty channel |
| `McpApproval.OneDecisionPerRequest` | src-tauri/src/mcp.rs:283-302 | in every run each sender is used at most once and always meets an empty slot, and every pending request is active |
| `McpDecisions.DecisionHasSource` | src-tauri/src/mcp.rs:283-385 | every decision that reaches a request was given by the step that took its sender: the user's answer, a cancel, or a denial of all or of a host |
| `McpDecisions.AllowedByUser` | src-tauri/src/mcp.rs:912-916 | a request is decided Allow only if an earlier step was the user's Allow for it, given while it was pending |
| `McpDecisions.TakerDecides` | src-tauri/src/mcp.rs:283-385 | whatever happens afterwards, a request whose sender was taken is decided as that step says, or its time is up |
| `McpDecisions.PendingIsUndecided` | src-tauri/src/mcp.rs:892-946 | a pending request has been decided nothing, except that its time was up |
| `McpDecisions.DeniedIsNotAllowed` | src-tauri/src/mcp.rs:333-344 | a request denied with all others or with its host is decided Deny or its time is up, never Allow |
| `McpApproval.EarlyStep` | src-tauri/src/mcp.rs:346-376 | an early cancel is dropped by a registration of its id or by a cancel of another id that finds 256, and by nothing else |
| `McpApproval.EarlyCancelKept` | src-tauri/src/mcp.rs:346-376 | so it is kept over any run without such a step |
| `McpApproval.EarlyCancelRefuses` | src-tauri/src/mcp.rs:346-376 | a cancel that precedes registration makes it fail, unless such a step came between |
| `McpApproval.TakenIsMarkedIff` | src-tauri/src/mcp.rs:363-385 | the sender a cancel call takes is that of the request it marked if and only if the request it belongs to had registered when the call marked |
| `McpApproval.CancelReachesAnother` | src-tauri/src/mcp.rs:359-385 | a run in which a cancel of one request reaches the next one with the same id, which nobody cancelled |
| `McpApproval.McpRuntime.RegisterRequest` | src-tauri/src/mcp.rs:346-357 | is the model's step: refused as canceled if cancelled early, which uses the early cancel up, and as a duplicate if the id is in use |
| `McpApproval.McpRuntime.FinishRequest` | src-tauri/src/mcp.rs:359-361 | is the model's step |
| `McpApproval.McpRuntime.MarkCanceled` | src-tauri/src/mcp.rs:364-377 | is the model's step: sets the flag, or notes an early cancel, clearing a set of 256 first |
| `McpApproval.McpRuntime.TakePending` | src-tauri/src/mcp.rs:378-384 | is the model's step: the sender, and only it, leaves `pending` for the caller, who will send Cancel |
| `McpApproval.McpRuntime.ResolveApproval` | src-tauri/src/mcp.rs:283-302 | is the model's step: the pending request gets Allow if allowed, Deny if refused, TimedOut if the deadline passed; an error if there is none or it passed |
| `McpApproval.McpRuntime.DenyAllPending` | src-tauri/src/mcp.rs:333-344 | is the model's step: takes every pending request, to send it Deny |
| `McpApproval.McpRuntime.TakeHost` | src-tauri/src/mcp.rs:1198-1208 | is the model's step: takes the requests of that alias and leaves all others as they are |
| `HostStart.EnsureStarted` | src-tauri/src/host_start.rs:53-80 | succeeds exactly when its last look did, looks no further, starts only with the locks and after two looks in vain, and ends in every case as `Outcome` says |
| `HostStart.OutcomeIsRun` | src-tauri/src/host_start.rs:53-115 | every outcome of a call is a run of the protocol's steps, with the same result and the same start |
| `HostStart.RunKeepsLockInv` | src-tauri/src/host_start.rs:97-115 | in every interleaving, who holds which lock follows from where every call is |
| `HostStart.StartFollowsFailedLook` | src-tauri/src/host_start.rs:53-80 | before any state in which a call may start the host it looked in vain, and it has held its locks ever since |
| `HostStart.StartsAndLostWaits` | src-tauri/src/host_start.rs:53-115 | in every interleaving, calls of one process, or calls that can all lock the file, start at most one host more than waits of theirs ended with no host answering |
| `HostStart.AtMostOneStartPerGroup` | src-tauri/src/host_start.rs:53-115 | so they start at most one between them if a started host answers before its starter's wait ends |
| `HostStart.AtMostOneStart` | src-tauri/src/host_start.rs:53-164 | at most one start ever happens when all calls are of one process or can all lock the file |
| `HostStart.TwoStartsWithoutACommonLock` | src-tauri/src/host_start.rs:92-115 | any two calls of different processes of which one cannot lock the file can both start a host, though every host comes up in time |
| `HostStart.StartsOnceIff` | src-tauri/src/host_start.rs:53-164 | from any state in which nothing happened yet and no host answers, no run starts two hosts if and only if all calls are of one process or all can lock the file |
| `ShellQuoting.ShellRoundTrip` | src-tauri/src/connect.rs:78-98 | POSIX word recognition of the joined line gives back exactly argv, for every argv, and no unquoted character is an operator, an expansion or a pattern |
| `ShellQuoting.PlainStaysPlain` | src-tauri/src/connect.rs:81-82 | ssh web stays ssh web |
| `ShellQuoting.ShellRunsIff` | src-tauri/src/connect.rs:78-98 | a shell runs the joined line as the command argv if and only if argv[0] is not a bare word that looks like an assignment or is one of the shell's keywords, for any set of keywords |
| `ShellQuoting.AssignmentIsNotRun` | src-tauri/src/connect.rs:84-92 | a bare first argument that looks like an assignment is assigned, and the rest is run |
| `ShellQuoting.AssignmentExample` | src-tauri/src/connect.rs:84-98 | A=1 ls sets A and runs ls |
| `ShellQuoting.ReservedWordExample` | src-tauri/src/connect.rs:84-98 | if is read as a reserved word |
| `ShellQuoting.ShellJoinInjective` | src-tauri/src/connect.rs:94-98 | different commands give different lines |
| `ShellQuoting.EscapeOfFirst` | src-tauri/src/connect.rs:74-76 | the two replacement passes together escape character by character |
| `ShellQuoting.LiteralRoundTrip` | src-tauri/src/connect.rs:72-76 | the literal around an escaped string reads back as that string and ends at its own closing quote |
| `ShellQuoting.ScriptDelivers` | src-tauri/src/connect.rs:248-300 | a script line ending in the literal hands exactly the joined line to the shell |
| `ShellQuoting.LaunchDeliversArgv` | src-tauri/src/connect.rs:199-356 | for every terminal: each script line hands over a line whose words are argv, run as argv exactly unless argv[0] is misread; each emulator, reading its own arguments, runs argv exactly unless kitty or foot take argv[0] for an option; the empty command, and only it, is refused as empty |
| `ShellQuoting.LaunchesIff` | src-tauri/src/connect.rs:239-356 | a command is launched if and only if the terminal is a known one, by the program that terminal has |
| `ShellQuoting.OptionExample` | src-tauri/src/connect.rs:211-214 | kitty and foot take the command -v for an option |
| `KnownHosts.SegmentsSplit` | src-tauri/src/known_hosts.rs:167-169 | splitting keeps every byte, and each piece ends at its first line feed |
| `KnownHosts.SplitIsUnique` | src-tauri/src/known_hosts.rs:167-191 | pieces that look split are what splitting their concatenation gives |
| `KnownHosts.FieldsAre` | src-tauri/src/known_hosts.rs:46-63 | in a line of words with single blanks: hosts, key type and key are the first three words, or the three after a marker; nothing for a comment or too few words |
| `KnownHosts.BlankHasNoFields` | src-tauri/src/known_hosts.rs:47-50 | a blank line gives nothing |
| `KnownHosts.EntrySays` | src-tauri/src/known_hosts.rs:117-131 | the entry of such a line has its digest, its hosts, its key type, the digest of its key, and is hashed if the hosts begin with a bar |
| `KnownHosts.MarkedEntrySays` | src-tauri/src/known_hosts.rs:117-131 | and with a marker the same of the words after it |
| `KnownHosts.TrimEolIs` | src-tauri/src/known_hosts.rs:132-137 | the digest of a line leaves out the line ends at its end, and nothing else |
| `KnownHosts.CollectedIsItsLine` | src-tauri/src/known_hosts.rs:66-131 | every entry is about the line it names |
| `KnownHosts.RemoveLines` | src-tauri/src/known_hosts.rs:148-191 | error for mismatched lengths or repeats, conflict exactly when some line is gone or has other hosts, else the other pieces untouched and in order |
| `KnownHosts.RemoveFromText` | src-tauri/src/known_hosts.rs:213-227 | the same with the digest of each displayed line checked too |
| `KnownHosts.KeptIsThere` | src-tauri/src/known_hosts.rs:185-190 | every line that is not removed is kept as it is, as many places further up as lines before it are removed |
| `KnownHosts.GoneBeforeIs` | src-tauri/src/known_hosts.rs:185-190 | that number is the number of removed indices below it |
| `KnownHosts.KeepEntries` | src-tauri/src/known_hosts.rs:185-190 | the entries of what is kept are the kept entries, renumbered |
| `KnownHosts.RenumberedIff` | src-tauri/src/known_hosts.rs:117-191 | the new list has exactly the old entries that stay, with their details and their lowered index |
| `KnownHosts.RemoveThenList` | src-tauri/src/known_hosts.rs:117-191 | after removing any lines, the kept lines are byte-identical and in order, and listing gives the remaining entries, each index lowered by the removed lines before it |
| `KnownHosts.ListedCanBeRemoved` | src-tauri/src/known_hosts.rs:117-227 | any selection of different listed entries passes every check of a removal from the same text |
| `KnownHosts.RemoveListed` | src-tauri/src/known_hosts.rs:117-227 | list, choose, remove, list again: always succeeds and gives the old list without the chosen entries, renumbered |
| `KnownHosts.AppendLine` | src-tauri/src/known_hosts.rs:262-272 | keeps every listed entry and lists the entries of what was appended after all lines; for a single line that is one entry if it parses |
| `WritePolicies.Projected` | src-tauri/src/write_policy.rs:28-59 | the ancestor walk ends and computes the projection, in every error case too |
| `WritePolicies.ProjectMeans` | src-tauri/src/write_policy.rs:27-59 | a projection names an existing prefix that resolves to it, and its first missing name is missing below a directory |
| `WritePolicies.ProjectionFrom` | src-tauri/src/write_policy.rs:31-58 | if the names before the first missing one lead to a directory, the projection exists and is that directory with all remaining names, however many |
| `WritePolicies.ProjectedIff` | src-tauri/src/write_policy.rs:27-59 | a path has a projection, and it is a location, if and only if the path resolves there, or its missing names lie there below an existing directory |
| `WritePolicies.ProjectionIsCreation` | src-tauri/src/write_policy.rs:27-59 | once the missing components are created as directories the path resolves to exactly the projection, and nothing that existed changed |
| `WritePolicies.AcceptedStaysInside` | src-tauri/src/write_policy.rs:62-81 | if a confined path is accepted, then after creation it resolves to the root or below, and the root is where its parent says, not redirected by a link |
| `WritePolicies.AcceptsIffInside` | src-tauri/src/write_policy.rs:62-81 | where the projections exist, a path is accepted if and only if, after creation, it resolves inside the root and the root is where its parent says |
| `WritePolicies.AcceptsIffLands` | src-tauri/src/write_policy.rs:62-81 | by the disk alone: a path is accepted if and only if both paths are absolute without `..`, the root lands under its own name where its parent lands, and the path lands there or below |
| `WritePolicies.PlainPathsAreAccepted` | src-tauri/src/write_policy.rs:62-81 | below a root that is a plain directory, every path whose existing part is plain directories is accepted, whatever number of names is missing |
| `LogRotation.Logger.Rotate` | src-tauri/src/diagnostics.rs:245-265 | if the incoming bytes do not fit, app.log.2 goes and the other two move up; else nothing changes |
| `LogRotation.Logger.Write` | src-tauri/src/diagnostics.rs:308-317 | refuses an event over 32,768 bytes, else rotates if needed and appends it with a line feed |
| `LogRotation.RetainedIsSuffix` | src-tauri/src/diagnostics.rs:245-317 | after any run of writes the three files hold the last accepted events, whole and in order, each at most 262,144 bytes; once anything was dropped both rotated files exceed 229,375 bytes |
| `LogRotation.RetainedBytes` | src-tauri/src/diagnostics.rs:245-317 | the three files concatenate to the text of a suffix of the accepted events, of at least 458,752 bytes once anything was dropped |

## Left out

- HTTP routing, JSON parsing, bearer tokens, SHA-256, regular expressions and body size limits of the relay: token hashes and parsed items are inputs; the limiter call before single-chain requests would only add easy members.
- SQLite, Durable Object scheduling, eviction policy and alarm delivery: maps, atomic steps, and an eviction that may happen at any time and clears the minute window.
- The merge code of the client: a replica overlays rows and keeps a cursor; of the client's own checks only the refusal of a latest number below its cursor is modelled.
- JavaScript numbers: sequence numbers and base numbers are unbounded naturals, so rounding above 2^53 is not modelled.
- BatchPulls.BatchPull: chains are loaded as values and stored back rather than addressed as live objects; what other requests do between two items is a parameter.
- BatchPulls.PostPull: the body arrives parsed, and the length of an entry's JSON is a parameter.
- MCP requests for records, which share `pending` but use another cancellation token, the command run after approval, the audit log and the dialogs.
- MCP clocks and poisoned locks: a time limit is a step that may happen at any moment, also after a decision arrived.
- McpApproval.McpRuntime.TakePending: the ghost parameter names the protocol state the object is in; threads themselves exist only in the step relation.
- HostStart.EnsureStarted: clocks are replaced by the number of looks; polling for the file lock is a step that may find it busy at any time.
- What a shell does beyond simple commands (aliases other than as keywords, functions, builtins, double quotes, expansions): the reader refuses a line in which an unquoted character would expand or separate.
- ShellQuoting.LaunchDeliversArgv: for Windows Terminal and cmd it states only that the arguments end with argv, because the parsing of wt.exe, start and cmd.exe is not part of this model; neither is osascript beyond string literals.
- KnownHosts.RemoveLines: the 32-bit line index is unbounded, so texts of more than 4,294,967,296 lines are not modelled; digests and fingerprints are parameters; backups and the atomic file write are left out.
- WritePolicies.AcceptedStaysInside: the file system does not change between the check and the write, except by creating the missing components; Windows prefixes and case folding are left out.
- LogRotation.Logger.Write: the event is a parameter; failing file operations, the panic path and writers in other processes are left out.
- Deploying keys, askpass, discovery, secrets, the tray, probes, settings, updates, platform code and all user interface: classification of external output, thin wrappers or constants.
