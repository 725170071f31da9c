# WartungsRemote: a verified model of its core

WartungsRemote is a remote-maintenance server with an agent on every managed machine. This project
models the parts of it whose correctness concerns whole runs, every interleaving or every input, and
proves what they promise. `dafny verify dfyconfig.toml` checks everything.

| file | part of the system | main results |
|---|---|---|
| `SelfUpdate.dfy` | agent self-update: staging, marker, boot, commit on connect | whichever calls fail and wherever the machine dies, a proven binary stays on disk in every run whose updates and first connects meet a condition on the files, and that condition is exact; only verified bytes become the executable |
| `Rollback.dfy` | rollback of an update that never connects | exactly when the old binary comes back, for every outcome of every call of the update and of the boots after it |
| `AuditChain.dfy` | hash-chained audit log | every interleaving of honest writers verifies; the chain binds its history or exhibits a collision; an edit of any column is reported at exactly its row |
| `NetMetrics.dfy` | the agent's sample buffer and batch uploader | no sample is lost under any interleaving and any failure, and exactly which rows are sent |
| `Sampler.dfy` | byte counters and delta sampling | bytes are conserved; deltas telescope |
| `RateLimit.dfy` | sliding-window rate limiter | in-place compaction refines the full call history in any order of times; exactly which windows are never exceeded |
| `Password.dfy` | support passwords | every password can be drawn; the in-place shuffle is a bijection between choices and arrangements |
| `Registry.dfy` | enrollment tokens, devices, credentials | use counts, single use, listing agrees with consuming, revocation is permanent |
| `ControlHub.dfy` | reply correlation and the connection table | no reply is misdelivered, and exactly the replies whose caller did not give up reach it; the table holds exactly the current connection |
| `Alerting.dfy` | alert evaluation | the nested loop equals its pointwise meaning and is idempotent; one active alert per pair |
| `Rollup.dfy` | hourly roll-up and retention | exactly when an hourly row holds the sum of all raw rows ever recorded |
| `Html.dfy`, `Markdown.dfy` | the help renderer | which line gives which element; only the fixed tags, balanced and nested, for every source; nothing of inline text or of code is lost |

Imperative code is modelled by classes and methods whose contracts tie the new state to a function of
the old one (`Disk`, `Store`, `RateLimiter`, `Tables`, `Hub`, `Engine`, `Metrics`), and the theorems are
about those functions and about runs built from them. A concurrent protocol is a `Step` function whose
events are the critical sections, SQL statements and channel operations of the source, and a run is any
sequence of events, so a theorem about runs covers every interleaving. Clocks, random draws, file-call
outcomes, SHA-256 and Ed25519 are parameters.

Where the code and its own comments differ, the model follows the code:

- `internal/auth/ratelimit.go:8` speaks of a fixed window; the code keeps a sliding window.
- `internal/agentcore/update.go:49-50` says that every failure path runs before the swap; a failed second
  rename followed by a failed undo leaves no executable (`SelfUpdate.ExecutableMissingIff`), and two
  update commands before the restart overwrite the only proven backup (`SelfUpdate.SecondUpdateLosesBoth`).
- `cmd/wr-agent/main.go:189-190` expects the current binary to stay in place when a rollback fails; the
  executable is removed before the rename, and a later connect deletes the backup as well
  (`SelfUpdate.FailedRollbackLosesBoth`).

Five properties hold only in part, and the condition is proved both ways:

- `internal/auth/ratelimit.go:27` reads the clock before it takes the lock, so calls can overtake each other.
  If they do so by up to d, exactly the windows shorter than the configured one by d or more are never
  exceeded (`RateLimit.NeverExceededIff`, `RateLimit.OvertakingExceeds`); limits of one or none are immune
  (`RateLimit.SmallNeverExceeded`).
- A roll-up replaces the row of an hour that retention has cut by the sum of what is left, and so does a late
  upload for it (`Rollup.RightThenWrong`, `Rollup.LateUploadIsWrong`). `Rollup.HourlyRightIff` says for every
  run when a row is right, and `Rollup.OrderlyStaysRight` that cutoffs on the hour avoid the loss.
- Two update commands before a restart, or a connect after a failed rollback, can leave no proven binary
  (`SelfUpdate.SecondUpdateLosesBoth`, `SelfUpdate.FailedRollbackLosesBoth`). `SelfUpdate.Guarded` is what can be
  checked beforehand, and `SelfUpdate.StepSafeIff` shows that it is exact.
- One torn marker write ends an update's rollback for good (`Rollback.TornMarkerIsFinal`), and a marker that was
  left behind can roll the next update back at its first boot (`Rollback.StaleMarkerRollsBackAtOnce`).
  `Rollback.RollbackExact` says for every run when the old binary comes back.
- A reply that arrives after its caller gave up is matched and lost (`ControlHub.AbandonedReply`).
  `ControlHub.ReplyReachesCallerIff` says which replies arrive.

## Model

| member | source | states |
|---|---|---|
| SelfUpdate.Disk.Stage | internal/agentupdate/stage.go:16-32 | staging as write, remove and rename calls, each of which may succeed, fail, tear or be the last |
| SelfUpdate.Disk.Restore | internal/agentupdate/stage.go:36-45 | restoring the backup: missing backup, ignored removal failure, failed rename |
| SelfUpdate.Disk.ReadMarker | internal/agentupdate/marker.go:24-37 | a marker is found, missing or unreadable, exactly by the outcome of the read and what the file holds; no file changes |
| SelfUpdate.Disk.ReconcilePendingUpdate | cmd/wr-agent/main.go:207-230 | counting a boot, or restoring the backup and exiting once the count exceeds the limit |
| SelfUpdate.Disk.CommitPendingUpdate | cmd/wr-agent/main.go:236-250 | the first connect removes backup and marker, if a marker can be read |
| SelfUpdate.Disk.Update | internal/agentcore/update.go:52-99 | without a key, without a download, beyond 256 MiB or when the signature check fails it returns false and no file changes; success means the check passed; the marker is written only after the swap |
| SelfUpdate.StageOutcomes | internal/agentupdate/stage.go:16-32 | for all failures and crash points staging either completes or leaves the running binary at the executable or the backup path, and never touches the marker |
| SelfUpdate.StagedFileGoneIff | internal/agentupdate/stage.go:21-26 | when the executable cannot be moved away the staged file is taken back if and only if its removal succeeds |
| SelfUpdate.ExecutableMissingIff | internal/agentupdate/stage.go:16-32 | exactly which failures and crash points leave no executable behind |
| SelfUpdate.RestoreOutcomes | internal/agentupdate/stage.go:36-45 | what each result of a restore says about executable, backup and marker, including an executable that may be gone when the rename failed |
| SelfUpdate.BootKeeps | cmd/wr-agent/main.go:207-230 | every boot keeps the recovery invariant, including one whose rollback fails or that dies half way |
| SelfUpdate.ConnectKeeps | cmd/wr-agent/main.go:236-250 | a guarded connect keeps the recovery invariant, including when it dies half way |
| SelfUpdate.UpdateKeeps | internal/agentcore/update.go:52-99 | a guarded update command keeps the recovery invariant, including when it dies half way |
| SelfUpdate.AlwaysRecoverable | cmd/wr-agent/main.go:188-250 | over every guarded run of boots, connects, updates, stops and crashes the executable or its backup is the complete image of a binary that was installed or has reached the server |
| SelfUpdate.StepSafeIff | cmd/wr-agent/main.go:188-250 | in every such state an event keeps a proven binary on disk under all outcomes of its calls if and only if it is guarded |
| SelfUpdate.LegalRunsAreGuarded | internal/agentupdate/stage.go:16-45 | runs in which updates start from the running binary's own file and no surviving rollback fails its rename are guarded |
| SelfUpdate.UnguardedConnectLoses | cmd/wr-agent/main.go:236-250 | an unguarded connect loses the last proven binary with every call succeeding |
| SelfUpdate.UnguardedUpdateLoses | internal/agentupdate/stage.go:16-32 | an unguarded update loses it when the machine dies at the first rename |
| SelfUpdate.StageSafeIff | internal/agentupdate/stage.go:16-32 | staging is safe under all failures if and only if the executable is a proven binary when it starts |
| SelfUpdate.CommitSafeIff | cmd/wr-agent/main.go:236-250 | committing is safe under all failures if and only if no marker is readable or the executable is a proven binary |
| SelfUpdate.SecondUpdateLosesBoth | internal/agentcore/commands.go:179-194 | a second update before the restart is not guarded, and with every call succeeding leaves no proven binary |
| SelfUpdate.FailedRollbackLosesBoth | internal/agentupdate/stage.go:36-45 | one failed rename during rollback loses nothing, but the connect after it is not guarded and leaves neither executable nor backup |
| SelfUpdate.MarkersCount | internal/agentupdate/marker.go:24-53 | over every run a readable marker names the backup path and at most MaxBootAttempts boots |
| Rollback.BootCountsIff | cmd/wr-agent/main.go:207-230 | exactly which outcomes of a boot's calls count it, tear the marker or change nothing |
| Rollback.BootAdvances | cmd/wr-agent/main.go:207-230 | one boot of an unconfirmed update under any outcomes: counted, not counted, torn, restored or lost |
| Rollback.RollbackFrom | cmd/wr-agent/main.go:207-230 | over every run of boots and stops from a marker that counts m boots, under any outcomes, the byte-identical old binary is back if and only if the missing boots were counted, none tore the marker, and a later boot's load, look at the backup and rename succeeded before any attempt lost the executable |
| Rollback.UpdateOutcome | internal/agentcore/update.go:85-95 | what an update leaves under any outcomes of its calls: a failed marker write keeps the earlier marker |
| Rollback.RollbackExact | cmd/wr-agent/main.go:207-230 | for every update that swaps in any run, whatever its marker write and the boots after it do: the replaced binary comes back if and only if there is a count to start from, none for a written marker and that of an earlier one left behind, and the rest holds as before |
| Rollback.StaleMarkerRollsBackAtOnce | internal/agentcore/update.go:90-95 | a marker left behind by a connect and a failed marker write: the next update is rolled back at its very first boot |
| Rollback.TornMarkerIsFinal | internal/agentupdate/marker.go:39-45 | after a boot that tears the marker no boot, connect or crash changes any file |
| Rollback.ThreeBootsThenBack | internal/agentupdate/marker.go:18-22 | when every call succeeds an update that never connects is booted exactly MaxBootAttempts times, the next boot restores the previous binary and exits, later boots run it |
| Rollback.ConnectPreventsRollbackIff | cmd/wr-agent/main.go:232-250 | a connect makes rollback impossible for ever if and only if its load and one of its two removals succeed; otherwise enough boots that succeed put the old binary back |
| Rollback.NothingPending | cmd/wr-agent/main.go:207-250 | without a readable marker no boot, connect or crash changes a file, whatever its calls return |
| SelfUpdate.OnlyVerified | internal/agentcore/update.go:77-95 | in every run with any failures, executable and backup are absent, the installed binary, or complete bytes of at most 256 MiB for which some signature passes under the embedded key |
| SelfUpdate.AcceptedIsVerified | internal/agentcore/update.go:52-81 | what an update is accepted for, in terms of key, size and signature check alone |
| SelfUpdate.VerifiedIsInstalled | internal/agentcore/update.go:77-99 | an update that passes the check and whose calls succeed becomes the executable, the old one the backup, and the marker names its version and no boots |
| SelfUpdate.ProvenIff | cmd/wr-agent/main.go:232-250 | over every run a binary counts as proven if and only if it was installed or has connected |
| AuditChain.VerifyChain | internal/audit/audit.go:261-335 | valid exactly when every row from the first hashed one on continues its predecessor and the hash of all its columns is its entry; otherwise the first bad row is named; counts of checked and pre-chain rows |
| AuditChain.VerdictUnique | internal/audit/audit.go:261-335 | a log has exactly one verdict |
| AuditChain.NewRow | internal/audit/audit.go:130-186 | the row written for an event continues the given hash, reads back as the fields that were hashed, including an empty source address, and stores their hash, which covers all eleven columns (`AuditChain.ContentIsColumns`) |
| AuditChain.CommitHonest | internal/audit/audit.go:130-186 | a commit extends the chain and leaves the view of every open transaction current |
| AuditChain.RunHonest | internal/audit/audit.go:130-186 | every interleaving of lock, read, insert, commit and rollback keeps the chain, with one row per commit |
| AuditChain.RecordAlone | internal/audit/audit.go:130-186 | an undisturbed writer adds exactly its row after the last one, or nothing when it rolls back, and frees the lock |
| AuditChain.LockIsExclusive | internal/audit/audit.go:130-186 | nobody gets the lock while it is held |
| AuditChain.RowsAsBegun | internal/audit/audit.go:130-186 | in every interleaving each row a run adds reads back as the fields some writer began with |
| AuditChain.HonestWritersVerify | internal/audit/audit.go:261-335 | after any interleaving of honest writers on any number of pre-chain rows the verdict is valid, with exactly the commits checked |
| AuditChain.AppendOnly | migrations/0003_audit_append_only.sql:5-17 | whatever transactions try, updates and deletes included, the earlier log stays a prefix |
| AuditChain.BindingUpTo | internal/audit/audit.go:211-226 | equal hashes at one position: the same bytes were hashed at every earlier position, or a collision is produced |
| AuditChain.ChainBinding | internal/audit/audit.go:211-226 | two verifying logs of equal length with the same final hash hashed the same bytes everywhere, or a collision is produced |
| AuditChain.EditIsLocated | internal/audit/audit.go:272-334 | changing hashed content of any rows under unchanged stored hashes is reported at exactly the first changed row, or is a collision |
| AuditChain.LinkEditIsLocated | internal/audit/audit.go:325-330 | changing the stored previous hash of one row of a valid log is reported at exactly that row |
| AuditChain.ContentIsColumns | internal/audit/audit.go:211-226 | the hashed bytes are the eleven columns, in this order and with nothing in between |
| AuditChain.ColumnMatters | internal/audit/audit.go:211-226 | for each of the eleven columns: changing its bytes alone changes what is hashed |
| AuditChain.ColumnEditIsLocated | internal/audit/audit.go:261-335 | changing any one named column of one chained row under unchanged stored hashes is reported at exactly that row, or is a collision |
| NetMetrics.Store.Insert | internal/netmetrics/store.go:82-92 | appends under a fresh, larger id, or fails and changes nothing |
| NetMetrics.Store.Pending | internal/netmetrics/store.go:95-119 | a leading part of the buffer of length min(limit, n), every row of it older than every row left, or an error |
| NetMetrics.Store.DeleteUpTo | internal/netmetrics/store.go:123-128 | removes the rows up to the given id, or fails and changes nothing |
| NetMetrics.Store.UploadRound | internal/agentcore/session.go:157-194 | one round: nothing happens when the read or the send fails; otherwise the oldest rows, at most 500, are sent, and exactly those leave the buffer if the delete succeeds; when another round follows |
| NetMetrics.Store.Upload | internal/agentcore/session.go:157-194 | the drain loop ends; what it sent is a leading part of the buffer, only rows that were sent have left it, and if nothing fails everything was sent and the buffer is empty; both as `NetMetrics.DrainedIff` says row by row |
| NetMetrics.DrainedIff | internal/agentcore/session.go:157-194 | row i is sent if and only if the read and the send of its round succeed and all earlier rounds completed, and leaves the buffer if and only if its own delete succeeds too |
| NetMetrics.WithoutBatch | internal/netmetrics/store.go:121-128 | deleting up to the last id of the oldest batch deletes exactly that batch |
| NetMetrics.DeleteExact | internal/agentcore/session.go:157-194 | a delete removes exactly the batch just sent, whatever was inserted since it was read |
| NetMetrics.NothingLost | internal/agentcore/session.go:157-194 | under every interleaving and failure the samples ever inserted are those deleted followed by those buffered, and every deleted one was sent, in the sense of `NetMetrics.SentIff` and `NetMetrics.InsertedAre` |
| NetMetrics.SentIff | internal/agentcore/session.go:157-194 | over every run a row counts as sent if and only if a send succeeded while the uploader held a batch with it |
| NetMetrics.InsertedAre | internal/netmetrics/store.go:82-92 | over every run the rows ever inserted hold the samples of the successful inserts, in order |
| NetMetrics.ReadTakes | internal/agentcore/session.go:157-194 | a read takes the oldest rows, at most 500 |
| NetMetrics.RowsChange | internal/agentcore/session.go:157-194 | only a successful insert or a successful delete after a send changes the buffer, and a failed call or a lost connection leaves it alone |
| Sampler.ControlBytesCounter.AddSent | internal/netmetrics/counter.go:21-25 | the sum modulo 2^64 for a positive count, no change otherwise; the other counter is untouched |
| Sampler.ControlBytesCounter.AddRecv | internal/netmetrics/counter.go:27-31 | the sum modulo 2^64 for a positive count, no change otherwise; the other counter is untouched |
| Sampler.ControlBytesCounter.SwapSent | internal/netmetrics/counter.go:33-37 | returns and clears the sent counter only |
| Sampler.ControlBytesCounter.SwapRecv | internal/netmetrics/counter.go:33-37 | returns and clears the received counter only |
| Sampler.BytesConserved | internal/netmetrics/counter.go:21-37 | under every interleaving of adds with the two swaps, the sum of all positive counts added equals the live counter, the tick in progress, inserted samples, failed samples and full wrap-arounds, in both directions |
| Sampler.TickOutcomes | internal/netmetrics/sampler.go:56-68 | over every run a tick counts as stored exactly when its insert succeeded |
| Sampler.TickTakesAll | internal/netmetrics/counter.go:33-37 | a tick takes every byte there is, and bytes added after a swap wait for the next tick |
| Sampler.RunSampler | internal/netmetrics/sampler.go:27-70 | each tick stores its time, its interval, the delta from the last successful reading (zero when a reading is missing or a counter went backwards) and its control bytes, unless the insert fails, which disturbs no later tick |
| Sampler.StoredExactly | internal/netmetrics/sampler.go:27-70 | one sample for each tick whose insert succeeds and none for the others, in order |
| Sampler.SampleColumns | internal/netmetrics/sampler.go:27-70 | each column of a sample: time, interval, control bytes, and the differences to the last successful reading, or zero in both columns when this reading failed or one counter went backwards |
| Sampler.SampleWithoutBaseline | internal/netmetrics/sampler.go:27-70 | without an earlier successful reading the totals are zero |
| Sampler.IntervalsTelescope | internal/netmetrics/sampler.go:53-68 | the intervals of all ticks cover the time from the start without gap or overlap |
| Sampler.DeltasTelescope | internal/netmetrics/sampler.go:27-70 | over a non-decreasing stretch the deltas add up to last minus first successful reading, despite failed reads in between |
| RateLimit.RateLimiter.Allow | internal/auth/ratelimit.go:26-46 | the answer and all stored times, for every key, as a pure step on the old times |
| RateLimit.RateLimiter.constructor | internal/auth/ratelimit.go:20-22 | nothing is stored at first |
| RateLimit.Compact | internal/auth/ratelimit.go:31-38 | filtering through the aliased slice equals the pure filter and leaves the array beyond it alone |
| RateLimit.Append | internal/auth/ratelimit.go:43 | appending in place or into a larger copy keeps the stored times |
| RateLimit.StoredAreSurvivors | internal/auth/ratelimit.go:26-46 | for every history, in any order of times, what is stored are the allowed calls that no later cutoff has reached |
| RateLimit.RememberedIff | internal/auth/ratelimit.go:26-46 | for every history the times a call counts are all allowed calls later than its cutoff if and only if no call in between has discarded one |
| RateLimit.AllowedIff | internal/auth/ratelimit.go:26-46 | for every history the next call is allowed if and only if fewer than limit earlier allowed calls of its key are later than its cutoff and not discarded |
| RateLimit.AllowedInOrder | internal/auth/ratelimit.go:26-46 | if no earlier call of the key has a later clock reading: if and only if fewer than limit lie in the window ending at it |
| RateLimit.WindowNeverExceeded | internal/auth/ratelimit.go:26-46 | for every history, whose calls overtake each other by some d: no window shorter than the configured one by d holds more than limit allowed calls |
| RateLimit.OvertakingExceeds | internal/auth/ratelimit.go:27-30 | for every limit above one, window and overtaking, a history that exceeds every longer window |
| RateLimit.NeverExceededIff | internal/auth/ratelimit.go:26-46 | with overtaking of up to d, a window length is never exceeded if and only if it is shorter than the configured window by d or more |
| RateLimit.SmallNeverExceeded | internal/auth/ratelimit.go:26-46 | a limit of one or none is never exceeded, however calls overtake each other |
| RateLimit.KeysIndependent | internal/auth/ratelimit.go:26-46 | a call is answered as if no other key had ever been used |
| Password.GenerateSupportPassword | internal/platform/password.go:30-63 | succeeds exactly when every draw does; length max(length, 4), only the alphabet, every class present; each character before the shuffle is the one drawn for its position, and each exchange is with the index drawn for it |
| Password.Fill | internal/platform/password.go:37-51 | position i holds the character of its set at the drawn index, or failure exactly when one of these draws fails |
| Password.Exchange | internal/platform/password.go:54-60 | position i and the index drawn for it exchange their characters and nothing else changes; nothing at all when the draw fails |
| Password.ShuffleInPlace | internal/platform/password.go:53-61 | the descending in-place loop equals the shuffle of its choices, each of which is the drawn index |
| Password.ShufflePermutes | internal/platform/password.go:53-61 | every choice vector keeps every element with its multiplicity |
| Password.ShuffleMovesPositions | internal/platform/password.go:53-61 | the shuffle moves positions, whatever they hold |
| Password.ShuffleSurjective | internal/platform/password.go:53-61 | every arrangement is reached, and its choices are computed |
| Password.ShuffleInjective | internal/platform/password.go:53-61 | on distinct elements different choices give different arrangements |
| Password.ShuffleBijective | internal/platform/password.go:53-61 | every arrangement of distinct elements is reached by exactly one choice vector |
| Password.ShuffledComplies | internal/platform/password.go:30-63 | class coverage and alphabet survive every shuffle |
| Password.EveryPasswordDrawn | internal/platform/password.go:30-79 | for all characters of the right classes and all choices some generator draws exactly these |
| Password.Charsets | internal/platform/password.go:31-51 | the first four positions have one class each, all later ones the whole alphabet |
| Password.Alphabet | internal/platform/password.go:11-16 | which characters the four classes hold |
| Registry.Lifetime | internal/enrollment/enrollment.go:93-121 | a requested lifetime within the ceiling is kept, any other becomes thirty minutes, and every lifetime is positive and within the ceiling |
| Registry.Tables.Create | internal/enrollment/enrollment.go:93-121 | a new token under an unused hash, with the requested reusability and expiring after its lifetime |
| Registry.Tables.Revoke | internal/enrollment/enrollment.go:123-135 | an outstanding token gets its time of revocation and no other token changes; for any other id it fails and nothing changes |
| Registry.Tables.RevokeAllOutstanding | internal/enrollment/enrollment.go:181-190 | revokes every outstanding token and counts them |
| Registry.Tables.Enroll | internal/enrollment/enrollment.go:213-304 | all rejections, and device, credential and token use in one transaction |
| Registry.Tables.Delete | internal/device/device.go:633-645 | deletes a device that was never seen, with its credentials, while its token stays consumed; tells a device with history from an unknown one |
| Registry.Tables.RevokeById | internal/device/device.go:600-614 | marks the device and every unrevoked credential revoked |
| Registry.CreateExactly | internal/enrollment/enrollment.go:93-121 | what a new token holds, and that its hash is accepted exactly until it expires |
| Registry.RevokeExactly | internal/enrollment/enrollment.go:123-135 | revoking one token: that row and no other, and only if it was outstanding |
| Registry.RevokeIsFinal | internal/enrollment/enrollment.go:123-135 | after a successful revocation in any reachable state no hash of the token is accepted at any time in any continuation, and it creates no further device |
| Registry.RevokeAllExactly | internal/enrollment/enrollment.go:181-190 | the emergency revocation touches exactly the outstanding tokens |
| Registry.EnrollIff | internal/enrollment/enrollment.go:213-304 | exactly when an enrollment succeeds, fails for its token or fails for its install id; a refused one changes nothing |
| Registry.EnrollExactly | internal/enrollment/enrollment.go:213-304 | the device, credential and token a successful one writes, and nothing else |
| Registry.DeleteExactly | internal/device/device.go:633-645 | what deleting a never-seen device removes and keeps; any other is left alone |
| Registry.RevokeDeviceExactly | internal/device/device.go:600-614 | which columns a device revocation writes, and in which rows |
| Registry.StatusWritten | internal/device/device.go:279-300 | what a heartbeat and a disconnect write |
| Registry.SeenForever | internal/device/device.go:633-645 | over every run a device that was ever seen is never deleted and keeps its install id |
| Registry.TokenUseBounded | internal/enrollment/enrollment.go:213-304 | over every run use_count is the number of devices ever created, a single-use token creates at most one even after it is deleted, and none is created after expiry |
| Registry.DeadForever | internal/enrollment/enrollment.go:245-295 | a revoked or consumed token never creates another device |
| Registry.RevokeAllIsFinal | internal/enrollment/enrollment.go:181-190 | no token existing at an emergency revocation is ever accepted again |
| Registry.ListingAgrees | internal/enrollment/enrollment.go:155-175 | in every reachable state a token is listed if and only if an enrollment with a fresh install id would succeed and it is not the very instant of expiry |
| Registry.DevicesDistinct | internal/enrollment/enrollment.go:255-285 | over every run install ids are unique and every device has exactly one credential |
| Registry.EnrolledCanAuthenticate | internal/device/device.go:582-596 | a new device passes the lookup, and its active key is the presented one and no other |
| Registry.RevocationPermanent | internal/controlhub/hub.go:526-551 | after a revocation no device lookup and no key lookup ever passes, whatever status is written later |
| ControlHub.RepliesCorrelated | internal/controlhub/hub.go:169-255 | in every interleaving no reply is dropped by a full channel, a caller returns only replies to its own id, a matched reply is what its caller returns if and only if the caller did not give up first, and nothing stays pending once all have returned |
| ControlHub.ReplyReachesCallerIff | internal/controlhub/hub.go:190-201 | the same for one matched reply |
| ControlHub.ReplyIsDelivered | internal/controlhub/hub.go:237-255 | in every reachable state a reply to the id of a waiter that was not served yet is handed to that waiter and to nothing else, and a waiter that is still there returns exactly it |
| ControlHub.OtherwiseHandled | internal/controlhub/hub.go:237-255 | every other message goes to `handleMessage` and leaves the waiters alone |
| ControlHub.RegisterWaits | internal/controlhub/hub.go:169-201 | registering, giving up and cleaning up one waiter |
| ControlHub.GaveUpIff | internal/controlhub/hub.go:190-201 | a caller has no reply exactly when it timed out, was cancelled or failed to write while still waiting |
| ControlHub.AbandonedReply | internal/controlhub/hub.go:237-255 | a reply after a timeout is matched, neither handled nor dropped, and nobody gets it |
| ControlHub.EveryMessageOnce | internal/controlhub/hub.go:237-255 | the messages that arrived are, as a multiset, those passed to `handleMessage` and those matched with a waiter; no waiter is matched twice, and an envelope stays with its waiter unchanged |
| ControlHub.RunCorrelated | internal/controlhub/hub.go:169-232 | the correlation invariant over every run with distinct ids |
| ControlHub.Hub.Register | internal/controlhub/hub.go:433-442 | the new connection replaces and returns the previous one |
| ControlHub.Hub.CloseConn | internal/controlhub/hub.go:317-328 | removes and returns the device's connection |
| ControlHub.Hub.Unregister | internal/controlhub/hub.go:457-461 | removes the entry only if it is still this connection |
| ControlHub.TableIsCurrent | internal/controlhub/hub.go:433-461 | in every interleaving the entry of a device is exactly the connection that registered last and was not closed or cleaned up since |
| ControlHub.LateCleanupHarmless | internal/controlhub/hub.go:457-461 | a superseded connection's cleanup leaves its successor current |
| Alerting.ScopedDevices | internal/alerting/engine.go:114-153 | the devices in scope, in order; early exit and missing scope ids included |
| Alerting.FilterMembers | internal/alerting/engine.go:114-153 | exactly the devices in scope, each once |
| Alerting.ScopeMeans | internal/alerting/engine.go:114-153 | what each scope type means, and that a missing scope id or an unknown type selects nothing |
| Alerting.Engine.OpenAlert | internal/alerting/alerting.go:179-196 | opens and notifies unless an active alert exists or the store call fails |
| Alerting.Engine.AutoResolveIfOpen | internal/alerting/alerting.go:201-210 | resolves the pair's active alerts and reports whether there were any, unless the store call fails |
| Alerting.OpenExactly | internal/alerting/alerting.go:179-196 | one new row in state open with the given severity and summary and one notification, unless an open or acknowledged one exists |
| Alerting.ResolveExactly | internal/alerting/alerting.go:201-210 | exactly the active rows of the pair become resolved |
| Alerting.Engine.EvaluateRule | internal/alerting/engine.go:73-109 | the inner loop over one rule's devices, skipping errors and failed store calls |
| Alerting.Engine.Evaluate | internal/alerting/engine.go:59-112 | the nested loop applies the visits of all enabled rules in order, or changes nothing when a list cannot be read |
| Alerting.VisitsIff | internal/alerting/engine.go:59-112 | exactly the devices in scope of an enabled rule are visited |
| Alerting.EvaluatePointwise | internal/alerting/engine.go:59-112 | afterwards a listed pair is active if and only if it triggered; errors, failed store calls, disabled rules and devices out of scope leave it as it was |
| Alerting.EvaluateWithStore | internal/alerting/engine.go:59-112 | the same in terms of verdicts and outcomes of the store calls |
| Alerting.NewRowHolds | internal/alerting/engine.go:59-112 | a row that is new after a pass is open and carries the severity and summary of a visit of its pair |
| Alerting.EvaluateElsewhere | internal/alerting/engine.go:59-112 | every other pair, listed or not, is as it was |
| Alerting.OtherRowsKept | internal/alerting/engine.go:59-112 | alerts of pairs that were not effectively visited are untouched |
| Alerting.NewRowsTriggered | internal/alerting/engine.go:59-112 | every new alert belongs to a visit that triggered |
| Alerting.OneNotificationEach | internal/alerting/engine.go:59-112 | new alerts and new notifications correspond one to one, in order |
| Alerting.SecondPassIdle | internal/alerting/engine.go:59-112 | a second pass with the same verdicts changes and notifies nothing |
| Alerting.AtMostOneActive | internal/alerting/alerting.go:179-247 | over every run with users acknowledging, resolving and deleting between SELECT and INSERT, a pair has at most one active alert |
| Alerting.ActionsExactly | internal/alerting/alerting.go:201-247 | what acknowledging, resolving and deleting do to the rows |
| Alerting.SelectThenInsert | internal/alerting/alerting.go:179-196 | the two statements with nothing in between are one opening |
| Rollup.HourOf | internal/device/device.go:502-523 | the hour that contains a time |
| Rollup.Metrics.RecordBatch | internal/device/device.go:417-437 | succeeds exactly when every insert does, and then stores every sample of the batch in order; otherwise nothing |
| Rollup.Metrics.RollupHourly | internal/device/device.go:502-523 | every completed hour with raw rows gets their sums and count, every other hourly row is kept |
| Rollup.Metrics.ApplyRetention | internal/device/device.go:527-535 | exactly the rows at or after the cutoffs stay, the hourly ones unchanged; the second delete only follows the first |
| Rollup.Metrics.Tick | internal/device/retention.go:46-57 | pruning only follows a roll-up that succeeded |
| Rollup.RollupMirrorsRaw | internal/device/device.go:502-523 | a completed hour with raw rows gets their sums and count; every other hourly row is kept |
| Rollup.SumsAreColumns | internal/device/device.go:502-523 | each stored column is the sum of that column over exactly the rows of that device and hour, and the count their number |
| Rollup.RecordedAreUploads | internal/device/device.go:417-437 | the rows ever recorded are the uploaded ones, in order |
| Rollup.RollupIdempotent | internal/device/device.go:502-523 | rolling up twice is rolling up once |
| Rollup.RollupRightIff | internal/device/device.go:502-523 | a roll-up leaves a completed hour with the sums of all rows ever recorded for it if and only if none was pruned, or all were and its row was right already |
| Rollup.HourlyRightIff | internal/device/device.go:502-535 | over every run a row is right if and only if some roll-up covered its hour while it was complete and since then no row was uploaded for it, no roll-up saw only part of it, and it was not pruned |
| Rollup.RunAccounted | internal/device/device.go:417-535 | over every run an hour's raw rows are recorded rows, and equal counts mean equal sums |
| Rollup.CompleteIff | internal/device/device.go:417-535 | over every run an hour is complete if and only if no raw prune came after an upload of one of its rows older than that cutoff |
| Rollup.RollupAgrees | internal/device/device.go:502-523 | in particular a roll-up makes every completed hour right that no raw cutoff has reached, late uploads included |
| Rollup.CutHourIsWrong | internal/device/device.go:502-535 | a raw cutoff between two rows of an hour: the next roll-up stores the sum of the later ones only |
| Rollup.RightThenWrong | internal/device/device.go:502-535 | so a right row turns wrong, and its count drops |
| Rollup.TwoRowsBecomeOne | internal/device/device.go:502-535 | two rows of one hour and a cutoff between them: the stored count goes from two to one |
| Rollup.LateUploadIsWrong | internal/device/device.go:417-437 | a row uploaded after its hour was pruned: the next roll-up stores that row alone |
| Rollup.OrderlyStaysRight | internal/device/retention.go:46-57 | with cutoffs on the hour and no upload for an hour already cut, a right row stays right under every roll-up |
| Rollup.PrunedIsCountedIff | internal/device/retention.go:46-57 | everything a tick can prune belongs to an hour it has rolled up if and only if the raw cutoff is not past the start of the current hour |
| Rollup.PrunedRowsWereCounted | internal/device/retention.go:46-57 | with a raw retention of an hour or more every pruned row is part of the hourly row just written, which is right if and only if the hour was still complete |
| Html.UnescapeEscape | internal/help/help.go:190-195 | escaping loses nothing |
| Html.EscapeIsInert | internal/help/help.go:190-195 | no bracket and no quote is left in escaped text |
| Html.EscapeChangesIff | internal/help/help.go:190-195 | text without the five special characters, and no other, is left as it is |
| Html.BoldAtIff | internal/help/help.go:96 | bold text starts and ends exactly where the pattern's shortest match does |
| Html.InlineBold | internal/help/help.go:190-195 | closed bold text becomes a strong element between escaped text |
| Html.InlineCode | internal/help/help.go:190-195 | text between backquotes becomes a code element between escaped text |
| Html.InlinePlain | internal/help/help.go:190-195 | text without markers is only escaped |
| Html.InlineSafe | internal/help/help.go:190-195 | for every text, every angle bracket belongs to a strong or code tag, and each of these alternates between opening and closing and ends closed |
| Html.CodeAlternates | internal/help/help.go:190-195 | code spans never overlap each other |
| Html.CodeKeepsBold | internal/help/help.go:190-195 | turning backquotes into code tags leaves the bold spans as they were |
| Html.SpellInjective | internal/help/help.go:190-195 | output without stray angle brackets reads back as characters and tags in one way only |
| Html.InlineReversible | internal/help/help.go:190-195 | however the output is read, its tags taken as markers and its entities as characters give the source text |
| Html.InlineInjective | internal/help/help.go:190-195 | different texts have different output |
| Markdown.FlushList | internal/help/help.go:112-125 | the list closure writes one list with one item per buffered entry, or nothing |
| Markdown.RenderLine | internal/help/help.go:132-177 | one line writes the blocks it completes and keeps what it holds back |
| Markdown.RenderMarkdown | internal/help/help.go:106-184 | the line-driven loop gives the HTML of the source read as blocks |
| Markdown.LineStep | internal/help/help.go:132-177 | each line moves a prefix of the remaining blocks to the output |
| Markdown.RenderIsTagSafe | internal/help/help.go:106-184 | for every source the page reads in exactly one way as characters other than angle brackets and tags of the fixed set, balanced per tag, block tags well nested, strong and code alternating inside their own block |
| Markdown.CodeOnPage | internal/help/help.go:127-149 | code between two fence marks, after any lines that do not end inside a fence, is on the page as its escaped text in the two tags, between the pages of what comes before and after |
| Markdown.OpenCodeOnPage | internal/help/help.go:176-181 | the same for a fence that is never closed |
| Markdown.CodeVerbatim | internal/help/help.go:106-184 | the same for whole sources, and unescaping the text gives the code back |
| Markdown.JoinLines | internal/help/help.go:107-131 | splitting into lines and joining them is the identity |
| Markdown.SameTrimmed | internal/help/help.go:133 | spaces around a line do not matter |
| Markdown.HeadingOf | internal/help/help.go:92-93 | three hashes, a space and a text are a heading with that text |
| Markdown.BulletOf | internal/help/help.go:94 | a hyphen, a space and a text are a bulleted item |
| Markdown.NumberOf | internal/help/help.go:95 | digits, a dot, a space and a text are a numbered item |
| Markdown.FenceOf | internal/help/help.go:135-144 | three backquotes, whatever follows them, are a fence mark |
| Markdown.BlankOf | internal/help/help.go:150-153 | a line of spaces is blank |
| Markdown.ParagraphOf | internal/help/help.go:133-176 | a trimmed line with none of these markers is a paragraph |
| Markdown.RenderHeading | internal/help/help.go:154-158 | a heading line gives an h3 element with its escaped text |
| Markdown.RenderBullet | internal/help/help.go:159-166 | a bulleted line gives a ul element with one item |
| Markdown.RenderNumber | internal/help/help.go:167-174 | a numbered line gives an ol element with one item |
| Markdown.RenderParagraph | internal/help/help.go:175-176 | any other line gives a p element |
| Markdown.OneList | internal/help/help.go:112-125 | items of one kind in a row give one list with all of them in order |

## Left out

- Cryptography: Ed25519, SHA-256 and the verification of artifacts are parameters; only the digest length is used.
- HTTP handlers, WebSocket transport, JSON and YAML codecs, platform providers, the installer and the web UI.
- An agent without a data directory: it writes no marker and never rolls back.
- File permissions, `os.Executable` failing, and other processes touching the four paths.
- SelfUpdate.AlwaysRecoverable: holds for guarded runs, because the code loses the last proven binary in others.
- Rollback.RollbackExact: is about updates that swapped the binaries; after any other the executable is the old one or missing (`SelfUpdate.ExecutableMissingIff`).
- AuditChain.ChainBinding: speaks of the hashed bytes, not of field tuples, because optional fields are hashed without separators; removing rows at the end of a log is not visible to verification.
- AuditChain.Step: `Record` is modelled on values, one transaction step at a time, because its steps interleave; times, addresses and metadata are taken as the bytes that are hashed, which PostgreSQL is assumed to read back unchanged.
- ControlHub.Step: `sendAndWait`, `waitForID` and `tryDeliver` are modelled on values, one critical section or channel operation at a time, because they interleave; a failed write is a `GiveUp`.
- NetMetrics.Step: sampler and uploader share the store, so their interleaving is modelled on values beside the `Store` class; a batch counts as sent when the write call succeeds.
- RateLimit.WindowNeverExceeded: assumes a limit that is not negative, since a negative one allows nothing.
- Sampler.RunSampler: a finite number of ticks instead of an endless loop; intervals are whole nanoseconds.
- Registry.Tables: tenant, group and audit columns, and the database's and the server's clocks differing, are not modelled.
- Stability of the device status column: it is overwritten unconditionally, so no such claim is made.
- Alerting.Engine.Evaluate: `evaluateRule` is an oracle; alert times and audit entries are left out.
- Alerting.AtMostOneActive: one evaluator, as the server runs it; two could both insert.
- Rollup.Metrics: sums are exact integers, and the tables are modelled on values, so concurrent uploads during a statement are not.
- Markdown.Render: text is a sequence of characters, not UTF-8 bytes; sections, slugs and `Parse` are left out. What follows a fence mark on its line, list numbers and surrounding spaces never reach the page.
- Remote sessions, file transfer, the relay broker, RBAC, version comparison, the stream-frame codec, backoff and settings.
