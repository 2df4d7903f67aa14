# Fleet agent: verified models of its hard parts

Dafny models of the agent's concurrent protocols, its update pipelines and its packed binary layouts,
with proofs of what they guarantee over every run, every interleaving and every failure.
`dafny verify dfyconfig.toml` checks all of it.

## What is modelled

- **Reconnecting and pausing** (`Reconnect`, `ReconnectTheorems`, `RunLoop`, `BackoffVariant`). The loop of
  `Run`, `connectAndServe` and its deferred function are a transition system with explicit program
  counters, one step per critical section, channel operation or context test, for any number of callers of
  `Run` and `SetPaused`. The code itself is a class whose methods take only steps of that system, so every
  state they leave is one the theorems are about.
- **One connection** (`Connection`, `Liveness`, `Backoff`). The bounded send queue with its one writer,
  the read pump that answers pings through it, the sliding read deadline, the reconnect schedule with
  64-bit durations that wrap.
- **Commands** (`Commands`). `Dispatch`, the six handlers, and the results they send while running
  concurrently.
- **Extraction and engine update** (`Paths`, `FileSystem`, `Extract`, `EngineUpdate`). The lexical path
  cleaner, the string-prefix guard, and every state of the disk from the first byte of the download to
  the removal of the package. A `Disk` records each state of the files a crash could leave behind; every
  operation on it may fail.
- **Verified download and self-update** (`Verify`, `Download`, `SelfUpdate`, `UpdateConcurrency`).
- **Processes** (`EngineManager`). The engine and bridge processes of interactive mode, which may exit at
  any time, and the calls that start, stop and update them.
- **Windows and icons** (`HiddenWindow`, `TrayIcon`). Who owns the one hidden browser window, and who may
  destroy an icon handle.
- **Packed layouts** (`TaskDialog`).

## Where the code differs from its comments, or a natural claim is false

- The deferred function in `agent/internal/transport/client.go:327-335` calls `cancel()` before it asks
  whether the attempt's context is done, so it always is. Every failure under a live context is taken for
  a pause and skips the backoff, against the comment at 317-322. `FailureSkipsBackoff` states this.
  The module `BackoffVariant`, which is a variant and not the code, proves what a function that asks first
  would do.
- A pause that arrives between the pause test and the registration of the cancel function does not stop
  that attempt. "Paused implies not connected" is false (`PausedYetConnected`); `PausedConnectsIff` says
  exactly when, `PauseLeak` and `QuietWhilePaused` bound it.
- `Run` returning nil only for a finished context rests on nobody calling `persistentConn.Close`
  (`CloseEndsRun`).
- `NewBackoff` can make a schedule that falls, exactly when the minimum is above a minute and the maximum
  below it, or the maximum is above half an int64, where the doubling wraps (`NewBackoffRisesIff`,
  `ScheduleIffFits`).
- Extraction loses a file `X.tmp` when an entry `X` follows it (`TempThenFile`); `PlainReadingIffNoClobber`
  says exactly when the result is the plain reading of the archive. A file entry that leads to the install directory
  itself stages outside it (`TempInside`, `WritesInside`).
- A size cap of the largest int64 overflows and lets nothing through (`DownloadVerified`).
- An engine update whose signer check fails has already replaced the engine (`ApplyEngineUpdate`).
- A session can start between the last session check and the swap (`SessionCanStartBeforeApply`);
  `SessionDuringApplyIff` says exactly when one is active while an update is applied.
- "No crash on the way loses both executables" holds exactly if the executable is there to begin with, or its
  ".old" copy is and the update does not get to remove it. A refused rollback leaves the executable missing,
  and the next update that comes to its swap removes the copy
  (`agent/cmd/lightagent/update_apply_windows.go:36-41`). What the operating system answers to the swap is an
  input: `ApplyLightUpdate` and `Update` state the condition on it for one update, `UpdateAll` for any
  sequence of requests.
- An icon is destroyed at most once only because a late modification of a deleted tray icon fails
  (`LateModifyDestroysTwice`, `TeardownDuringSetIconPath`).

## Assumptions

- SHA-256, the host part of a URL, what a zip container holds, and whether a file's content carries an engine
  signer (Authenticode) are parameters. What WebView2, dialling, inventory collection, session checks, the
  listener's answer and the operating system's answers to the binary swap come to are inputs of the methods that
  ask. Every other file operation and process creation ends either way, as it may.
- A removal or a kill that the operating system refuses, and a wrong liveness probe, are
  counted; the guarantees that need none of them say so. A kill takes effect at once.
- A disk or a machine may be `smooth`: then nothing outside the code goes wrong, so reading, writing, renaming,
  removing, starting and killing succeed wherever the state of the files or processes allows it. Contracts use it
  to say when an operation succeeds, and never to say what is safe.
- Creating a window never returns nil without an error. Building a result envelope does not fail.
- Paths are compared case by case and the disk has no links. Install directories are absolute and
  cleaned, with a volume name in front.
- A new temporary file has a name that was free and that fits its pattern. The executable is not named like a
  staged download, and ApplyFn finds the file it is given.
- A dial under a context that is done already fails.

## Model

| member | source | states |
|---|---|---|
| Reconnect.StepInv | agent/internal/transport/client.go:254-411 | every step of every interleaving keeps: one owner of the loop, the registered cancel function is the owner's, statistics match the attempt, results are as the deferred function makes them |
| RunLoop.Client.SetPaused | agent/internal/transport/client.go:231-240 | sets the pause as asked, cancels the registered attempt if pausing and nothing else, closes exactly the current wake channel and replaces it by one never closed; the channel closed was open |
| RunLoop.Client.Begin | agent/internal/transport/client.go:255-261 | claims the loop exactly when no other caller has it |
| RunLoop.Client.Run | agent/internal/transport/client.go:254-310 | ErrAlreadyRunning exactly while another caller has the loop; nil only with a finished context, and then nothing registered, nothing reported and every greeted attempt counted; whatever else happens in between |
| RunLoop.Client.Round | agent/internal/transport/client.go:270-308 | one round takes only steps of the protocol: a finished context ends the loop, a paused client begins no attempt, and an unpaused one under a live context begins exactly one; it goes on if the context is alive at the end |
| RunLoop.Client.Next | agent/internal/transport/client.go:292-308 | nil and a cancelled context end the loop, a pause goes round at once, anything else waits out the next delay of a schedule from one second to sixty; under a live context the loop goes on and no delay is drawn |
| RunLoop.Client.ConnectAndServe | agent/internal/transport/client.go:316-411 | begins one attempt; whatever ends it, under a live outer context it is reported as a pause |
| RunLoop.Client.Serve | agent/internal/transport/client.go:389-411 | the attempt lasts until a pump fails or a context is done, and without a failure the context's own error is returned |
| RunLoop.Client.Connect | agent/internal/transport/client.go:337-381 | a connection comes up exactly if configuration, dial and hello do not fail and the dial begins under a live context |
| RunLoop.Client.EndAttempt | agent/internal/transport/client.go:327-335 | clears the cancel function, cancels the attempt, reports a pause unless the outer context is done, and then the attempt's own result |
| RunLoop.Client.MarkConnected | agent/internal/transport/client.go:383-387 | connection, its time and its count change together, and the count is again the number of greeted attempts |
| RunLoop.Client.RecordAttempt | agent/internal/transport/client.go:285-291 | after an attempt nothing is reported as connected; an error, and only an error, replaces the last one |
| ReconnectTheorems.NoLostWakeup | agent/internal/transport/client.go:231-283 | a caller that waits on a wake channel finds it closed, or waits on the one the next SetPaused closes while still paused |
| ReconnectTheorems.WakesClosedOnce | agent/internal/transport/client.go:231-240 | over a whole run each SetPaused closes one channel and none is closed twice |
| ReconnectTheorems.PausedIffLastAsked | agent/internal/transport/client.go:231-240 | in every reached state the client is paused exactly if the last SetPaused asked for it |
| ReconnectTheorems.ResumeWakes | agent/internal/transport/client.go:231-283 | after SetPaused(false) and until the next SetPaused(true) no waiting caller is left on an open channel, and the pause test lets callers through |
| ReconnectTheorems.ResumeReconnects | agent/internal/transport/client.go:270-324 | such a caller under a live context can take four steps, and any four it takes begin a new attempt |
| ReconnectTheorems.NilOnlyWhenDone | agent/internal/transport/client.go:284-310 | Run returns nil, and draws from its backoff, only once its own context is done; at most one delay is ever drawn |
| ReconnectTheorems.FailureSkipsBackoff | agent/internal/transport/client.go:327-335 | as written, every attempt whose outer context is alive at the deferred function's test counts as paused, and the loop then goes round without a delay, whatever happens until its decision |
| ReconnectTheorems.LiveDecisionSkipsBackoff | agent/internal/transport/client.go:292-303 | a decision under a live context never waits |
| ReconnectTheorems.CloseEndsRun | agent/internal/transport/client.go:608-611 | one Close on the connection being served, and Run can return nil under a live context |
| ReconnectTheorems.NilResultReturns | agent/internal/transport/client.go:292-294 | a nil result under a live context can end the loop |
| ReconnectTheorems.PauseLeak | agent/internal/transport/client.go:270-284 | while paused at most one attempt begins and the connection count grows by at most one, and only if an attempt was already past the pause test |
| ReconnectTheorems.PausedConnectsIff | agent/internal/transport/client.go:270-387 | a paused client can come to report a connection without being resumed exactly when an attempt not yet counted was past the test and its dial had begun or its context is not done |
| ReconnectTheorems.CancelledWhileConfiguring | agent/internal/transport/client.go:337-360 | an attempt cancelled before its dial connects no more |
| ReconnectTheorems.PausedYetConnected | agent/internal/transport/client.go:275-326 | a run in which SetPaused(true) comes too early to cancel |
| ReconnectTheorems.QuietWhilePaused | agent/internal/transport/client.go:270-284 | once that attempt has ended no other begins while paused |
| ReconnectTheorems.WaitsForSetPaused | agent/internal/transport/client.go:274-282 | a caller in the pause wait stays there until SetPaused or its own context ends the wait |
| ReconnectTheorems.PauseCancels | agent/internal/transport/client.go:231-236 | pausing cancels the attempt of whoever has registered one, for good |
| ReconnectTheorems.CancelledIffHit | agent/internal/transport/client.go:231-330 | over every run, an attempt the deferred function has not yet cancelled is cancelled exactly if a SetPaused(true) found it registered |
| ReconnectTheorems.CancelOwnership | agent/internal/transport/client.go:254-330 | at most one loop is active; the cancel function is nil or that of its current, last begun, attempt |
| ReconnectTheorems.StatsOwnership | agent/internal/transport/client.go:285-291 | connected exactly with a connection time, only while the loop is between reporting it and recording the end of the last begun attempt, whose hello was enqueued, and never with no active loop; the count is the number of greeted attempts |
| BackoffVariant.VariantBacksOffIff | agent/internal/transport/client.go:316-335 | labelled variant: over every run of a loop that asks before cancelling, a failure under a live context backs off exactly if no SetPaused(true) found the attempt registered |
| Connection.PersistentConn.Send | agent/internal/transport/client.go:592-606 | appends to a queue of fewer than 32, refuses only once the connection is over, waits only with 32 queued; what is refused or waits changes nothing |
| Connection.PersistentConn.WriteOnce | agent/internal/transport/client.go:665-679 | takes the oldest frame and writes it, or loses it in a failed write; ends the loop only after a failure or once the connection is over |
| Connection.PersistentConn.AnswerPing | agent/internal/transport/client.go:431-436 | waits for room or the end of the connection, then enqueues one pong for the ping owed, or none only once the connection is over |
| Connection.PersistentConn.ReadLoop | agent/internal/transport/client.go:613-638 | takes every message in order while the others go on sending, and while the connection lasts every ping among them has its pong sent, once and in order |
| Connection.StepInv | agent/internal/transport/client.go:592-679 | every step of every interleaving keeps conservation, the hello and the order of pings and pongs |
| Connection.WireConservation | agent/internal/transport/client.go:593-679 | successful Sends are, in order, the frames on the wire, at most one in flight or lost, and a queue of at most 32; hello is first and only first |
| Connection.EveryPingAnswered | agent/internal/transport/client.go:431-436 | while the connection lasts, whenever the pump reads again the pongs accepted are the pings received, once each and in order |
| Connection.PongBeforeNextRead | agent/internal/transport/client.go:624-637 | no message is taken before the previous ping's pong was accepted or the connection over |
| Liveness.DeadlineSlides | agent/internal/transport/client.go:613-630 | the deadline is the last sign of life plus readDeadline, time does not pass it in a read, and a timeout happens only at it |
| Liveness.LastArrivalSetsDeadline | agent/internal/transport/client.go:613-630 | the deadline is readDeadline after the last inbound message or pong, of either kind, or after the start |
| Liveness.SilentLinkTimesOut | agent/internal/transport/client.go:613-630 | a link on which nothing arrives any more can neither time out earlier nor go on later than readDeadline after its last sign of life, has only so many steps left, and has timed out when it has none |
| Liveness.IdleLinkSurvivesIff | agent/internal/transport/client.go:646-663 | an idle link with pong delays up to d survives every run exactly when ping interval plus d is below the read deadline |
| Liveness.FiftySecondsIsTheBound | agent/internal/transport/client.go:83-95 | with the agent's 75 and 25 seconds, pongs within 49 seconds always suffice and within 50 do not |
| Backoff.Backoff.constructor | agent/internal/transport/client.go:48-56 | a second for a minimum that is not positive; a maximum that is not below the minimum is kept, any other becomes a minute |
| Backoff.Backoff.Next | agent/internal/transport/client.go:60-71 | the k-th call since a reset returns the k-th delay of the schedule: the minimum first, then twice the last one up to the maximum |
| Backoff.DelayIsClosed | agent/internal/transport/client.go:60-71 | the k-th delay is the lesser of Min times 2 to the k-1 and Max, without overflow |
| Backoff.AtMaxIff | agent/internal/transport/client.go:60-71 | the schedule is at Max exactly after the logarithm of Max over Min many doublings |
| Backoff.ScheduleIffFits | agent/internal/transport/client.go:60-71 | the closed form holds for every call exactly when twice Max is an int64 |
| Backoff.NeverDecreases | agent/internal/transport/client.go:58-71 | delays never decrease and never exceed Max |
| Backoff.NewBackoffRisesIff | agent/internal/transport/client.go:48-56 | the constructor yields a rising schedule exactly when it need not replace a maximum below a minimum of over a minute and twice the maximum is an int64 |
| Commands.Outbox.RunInventoryRefresh | agent/cmd/lightagent/handlers.go:56-73 | the inventory goes first if it was collected, then one result that tells whether it was accepted |
| Commands.Outbox.RunManaged | agent/cmd/lightagent/handlers.go:75-127 | one result: 0 exactly for the right kind, decodable arguments, every required one present and not empty, and a manager that succeeds, otherwise -1 |
| Commands.Outbox.RunStartSolarbeam | agent/cmd/lightagent/handlers.go:75-93 | the fields a start needs are session, machine and bundle token |
| Commands.Outbox.RunStopSolarbeam | agent/cmd/lightagent/handlers.go:95-113 | the field a stop needs is the session |
| Commands.Outbox.RunShowNotification | agent/cmd/lightagent/handlers.go:144-180 | one result: 0 exactly if kind, title and body are there and not empty, and the balloon was shown or a connection request was handed to the prompt, otherwise -1 |
| Commands.Outbox.Dispatch | agent/internal/runtime/runtime.go:104-123 | nothing for an undecodable command; otherwise one result for the command, sent last: for each kind 0 exactly if the arguments decode, the fields that kind needs are not empty and its own outcome is a success, and -1 otherwise and for unsupported kinds; only a collected inventory goes before it |
| Commands.ResultsMatchCommands | agent/internal/transport/client.go:438-445 | with handlers running concurrently, results attempted for an id never exceed the decodable commands with it, and equal them once its handlers are done |
| Paths.JoinIsWalk | agent/internal/solarbeam/update_windows.go:112 | joining a name to a cleaned destination is walking its segments, of either separator, from the destination |
| Paths.DotDotGoesUp | agent/internal/solarbeam/update_windows.go:112 | a leading `..` drops the destination's last component |
| Paths.DotDotAtRoot | agent/internal/solarbeam/update_windows.go:112 | at a volume's root `..` stays |
| Paths.DotStays | agent/internal/solarbeam/update_windows.go:112 | a `.` segment leads nowhere |
| Paths.EmptyStays | agent/internal/solarbeam/update_windows.go:112 | nor does an empty segment |
| Paths.OtherGoesDown | agent/internal/solarbeam/update_windows.go:112 | any other segment adds itself as a component |
| Paths.JoinGoesUp | agent/internal/solarbeam/update_windows.go:112 | on strings: joining a name that begins with `..` is joining its rest to the destination's parent |
| Paths.AbsSnoc | agent/internal/solarbeam/update_windows.go:112 | a cleaned path is its parent's string, a backslash and its last component |
| Paths.AcceptedIffInside | agent/internal/solarbeam/update_windows.go:112-115 | the string-prefix guard accepts exactly the names whose cleaned components have the destination's as a prefix (none of them `..`); at a volume's root only names that lead to the root |
| Paths.UpAndBack | agent/internal/solarbeam/update_windows.go:112-115 | a name that begins with `..` is accepted exactly if the rest of it, taken from the parent, comes back in |
| Paths.SiblingRefused | agent/internal/solarbeam/update_windows.go:112-115 | `..` and another name is refused, as `..\evil.exe` is |
| Paths.TempIsSibling | agent/internal/solarbeam/update_windows.go:143 | appending `.tmp` to a cleaned path renames its last component |
| Paths.TempInside | agent/internal/solarbeam/update_windows.go:143 | the staging path of an accepted name is inside the destination exactly when the name does not lead to the destination itself |
| Extract.ExtractZipFile | agent/internal/solarbeam/update_windows.go:136-166 | every state is one of staging the entry: the whole content appears at once or not at all; an error from copy, close or rename leaves no staging file; only a directory in the way of either path makes it fail if nothing outside the code does |
| Extract.ExtractEntry | agent/internal/solarbeam/update_windows.go:111-127 | one entry is refused, made a directory (exactly if its bit says so or its name ends in a slash), or put in place through states of its staging; no directory is made before the guard, and then only the one the entry needs; what each error leaves; it fails only for the guard or for what is in the way, unless something outside the code goes wrong |
| Extract.ExtractZip | agent/internal/solarbeam/update_windows.go:99-130 | every state on the way is a prefix of the archive; success means all entries accepted and applied in order, and the directories they need made; an error names the entry at which it stopped; it fails only for the archive or for what is in the way, unless something outside the code goes wrong |
| Extract.CrashSafe | agent/internal/solarbeam/update_windows.go:132-166 | in any state a crash can leave, a path not ending in .tmp has its original content or a processed entry's complete content |
| Extract.LastWinsLookup | agent/internal/solarbeam/update_windows.go:111-127 | in the plain reading of an archive a path has its last entry's content, or its original one |
| Extract.OutsideTemp | agent/internal/solarbeam/update_windows.go:136-166 | off the .tmp paths extraction is the plain reading of the archive |
| Extract.PlainReadingIffNoClobber | agent/internal/solarbeam/update_windows.go:143-163 | on all paths it is exactly when no entry's staging path held a file that no later entry puts back |
| Extract.TempThenFile | agent/internal/solarbeam/update_windows.go:143-163 | the failing archive: a file X.tmp and then a file X, both accepted, into any install directory |
| Extract.WritesInside | agent/internal/solarbeam/update_windows.go:112-143 | both paths an accepted entry writes are inside the install directory, but for the staging path of an entry that leads to it |
| Extract.DirsInside | agent/internal/solarbeam/update_windows.go:112-125 | the directory an accepted entry needs is the path it leads to, or for a file the parent of that, and is inside the install directory unless a file entry leads to that directory itself |
| Extract.OutsideUntouched | agent/internal/solarbeam/update_windows.go:106-128 | in any state a crash can leave, a path outside the install directory is as it was |
| EngineUpdate.AcceptedIffAddressed | agent/internal/solarbeam/manager.go:234-249 | accepted arguments are exactly complete ones for this product whose digests encode 32 bytes |
| EngineUpdate.Unpack | agent/internal/solarbeam/update_windows.go:66-74 | creating the directory, extracting and checking the signer leave a prefix of the archive, all of it when only the signer check failed; success means that the engine at its path carries the requested signer |
| EngineUpdate.ApplyEngineUpdate | agent/internal/solarbeam/update_windows.go:47-76 | only an authentic package is unpacked, in full on success, with nothing else changed; success means that the engine then carries the requested signer, and if nothing outside the code goes wrong the update succeeds exactly if the package is a good download that can be installed; the package itself is gone after every outcome, or is all that is left over if its removal was refused; every state is one of the download or of the extraction |
| EngineUpdate.RootFirst | agent/internal/solarbeam/update_windows.go:82-90 | a configured root is the install directory, whatever the engine's path; none at all only without an engine too |
| EngineUpdate.EngineEntryTarget | agent/internal/solarbeam/update_windows.go:82-90 | without a root, a package's file with the engine's base name is accepted and goes to the engine's own path |
| EngineUpdate.EngineInPlace | agent/internal/solarbeam/update_windows.go:47-90 | so after an update that succeeded with such a last entry the engine's path holds its content |
| EngineUpdate.UpdateCrashSafe | agent/internal/solarbeam/update_windows.go:47-166 | in any state of a whole update or first install, a path that is no .tmp holds what it held, if anything, or a complete entry's content, or is the staged package |
| EngineUpdate.UpdateOutsideUntouched | agent/internal/solarbeam/update_windows.go:47-128 | in any state of a whole update, a path neither inside the install directory nor named like a staged package is as it was |
| EngineUpdate.EngineNeverPartial | agent/internal/solarbeam/update_windows.go:30-47 | the engine's own path is never left half-written, also where no engine was before |
| EngineUpdate.UnpackAndDiscard | agent/internal/solarbeam/update_windows.go:64-75 | the package is removed whatever becomes of the extraction, and nothing but the extraction remains |
| EngineManager.Machine.TerminateByName | agent/internal/solarbeam/manager_windows.go:290-313 | no process of that name is left alive, if no kill was refused; nothing else starts or comes back |
| EngineManager.Manager.LaunchBridge | agent/internal/solarbeam/manager_windows.go:360-401 | at most one live bridge whatever fails; success means this call's bridge, of the configured name, started and then a listener answered, and it comes if nothing outside the code goes wrong |
| EngineManager.Manager.StartEngineInteractive | agent/internal/solarbeam/manager_windows.go:444-468 | the new process is named as the configured engine, is the tracked one and the only live one; on failure none is tracked |
| EngineManager.Manager.Start | agent/internal/solarbeam/manager.go:156-176 | for each outcome exactly what was started, in order and by name: an engine only after this call's own bridge and a listener; it fails only without an installed engine, a bridge name or a listener, unless something outside the code goes wrong |
| EngineManager.Manager.Stop | agent/internal/solarbeam/manager_windows.go:473-482 | no engine and no bridge left alive if kills succeed, and none tracked |
| EngineManager.Manager.EngineProcessRunning | agent/internal/solarbeam/manager_windows.go:488-493 | says whether the tracked engine is alive; "not running" means that no engine at all is |
| EngineManager.Manager.GetStatus | agent/internal/solarbeam/manager.go:192-203 | the version is the file's own if it can be read, else the last one applied |
| EngineManager.Manager.Update | agent/internal/solarbeam/manager.go:216-232 | arguments are refused exactly when not addressed to the engine, and the update for a running engine exactly when the tracked one is alive; the update body is reached only with no live engine, and none starts meanwhile; the version changes exactly on success, which means an authentic package unpacked in full |
| EngineManager.Manager.Serve | agent/internal/solarbeam/manager.go:156-232 | over any sequence of calls with any failures, if kills succeed: in every state, inside the calls too, one live engine and one live bridge at most; between calls the live engine is the tracked one; every engine start directly after a bridge start and its listener |
| Verify.DecodeEncode | agent/internal/verify/artifact_security.go:15-21 | decoding an encoding gives the bytes back, and an encoding is lower-case |
| Verify.EncodeDecode | agent/internal/verify/artifact_security.go:15-21 | encoding what a lower-case string decodes to gives the string back |
| Verify.ValidIffEncoding | agent/internal/verify/artifact_security.go:15-21 | the valid strings are exactly the encodings of 32 bytes |
| Verify.EncodeOne | agent/internal/verify/artifact_security.go:15-21 | a byte is two lower-case digits, the higher one first |
| Verify.EncodeConcat | agent/internal/verify/artifact_security.go:15-21 | bytes are encoded one after the other |
| Verify.SignerAcceptedIff | agent/internal/verify/artifact_security.go:25-39 | a certificate passes exactly when present with a digest that encodes to the fingerprint; a missing one and malformed fingerprints are reported as such, exactly |
| Download.CopyLimited | agent/internal/verify/download.go:100-101 | for every chunking, the file holds the body up to the limit, and never more on the way; it fails only for a broken body within the limit, unless something outside the code goes wrong |
| Download.VerifySHA256 | agent/internal/verify/download.go:124-139 | passes only a file whose digest encodes to the wanted string, and passes it if it can be read back |
| Download.Receive | agent/internal/verify/download.go:77-114 | a file is handed on only with the whole body, within the cap; otherwise none is left; each error exactly for its reason, unless something outside the code goes wrong |
| Download.DownloadVerified | agent/internal/verify/download.go:77-121 | a path only for the whole body, within the cap, with the wanted digest, and always for such a one unless something outside the code goes wrong; after every failure no file; never more than cap plus one byte staged; a refused response, size or digest is reported as such |
| SelfUpdate.AcceptedIffTrusted | agent/internal/update/manager.go:115-137 | accepted arguments are exactly complete ones of this product and profile, a trusted signer, well-formed digests and an allowed host |
| SelfUpdate.SwapBinaries | agent/cmd/lightagent/update_apply_windows.go:39-45 | succeeds exactly if both renames are granted, the executable is there and no directory is in the way; then the new binary is in place, else the old one is back (beside, if the rollback was refused); no state loses both; with no executable there nothing changes |
| SelfUpdate.ApplyLightUpdate | agent/cmd/lightagent/update_apply_windows.go:26-63 | succeeds exactly if path, signature and both renames are granted, the executable is there and no directory is in the way, whatever becomes of the removals; nothing else changes and no .old file is left if its removal is granted; a copy of the executable is there in every state exactly if it was in place, or its .old copy was there and path, signature and removal are not all granted |
| SelfUpdate.SingleFlight.TryBegin | agent/internal/verify/download.go:40-48 | gives the slot exactly when it was free |
| SelfUpdate.Manager.Fetch | agent/internal/update/manager.go:86-107 | after a download that succeeded, no ApplyFn exactly if there is none, and a session error exactly if the check said so; nothing left after any error; the download fails only if it is not a good one, unless something outside the code goes wrong |
| SelfUpdate.Manager.Stage | agent/internal/update/manager.go:78-107 | arguments are refused exactly when not trusted; a file reaches ApplyFn only if authentic, within the cap, for trusted arguments, and with no session at either check, and then always unless something outside the code goes wrong; otherwise none is left |
| SelfUpdate.Manager.CallApplyFn | agent/internal/update/manager.go:108-112 | applies once; after an error the staged file is gone and the executable, if there was one, is in place, or beside it if the rollback was refused |
| SelfUpdate.Manager.Commit | agent/internal/update/manager.go:108-112 | the same, and over the whole update a copy of the executable stays exactly if it was in place, or its .old copy was there and the answers do not clear it |
| SelfUpdate.Manager.Update | agent/internal/update/manager.go:72-113 | refused exactly while another update holds the slot; applies at most once and only what Stage lets through, and all of that unless something outside the code goes wrong; nothing staged remains; the events tell whether ApplyFn was reached, and then it succeeds exactly if path, signature and both renames are granted for an executable that is there; if the executable was there no crash on the way loses both copies, and in general one stays exactly if it was there, or its .old copy was and ApplyFn was not reached or the answers do not clear it |
| SelfUpdate.Manager.UpdateAll | agent/internal/update/manager.go:72-113 | over any sequence of requests and answers, of which the events tell those that reached ApplyFn: the executable stays in place exactly if none of their answers strands it, and a copy of it is there in every state exactly if none clears the .old copy while it is missing |
| UpdateConcurrency.OneUpdateAtATime | agent/internal/update/manager.go:72-113 | among any number of callers at most one is between TryBegin and End, and one that applies was last told of no session |
| UpdateConcurrency.SessionDuringApplyIff | agent/internal/update/manager.go:104-108 | while an update is applied, a session is active exactly if one started after that caller's second session check, which had said no, and has not ended since |
| UpdateConcurrency.SessionCanStartBeforeApply | agent/internal/update/manager.go:104-108 | a run in which a session is active while an update is applied |
| HiddenWindow.Launcher.Open | agent/internal/hiddenbrowser/hiddenbrowser.go:114-182 | a tracked window is brought to the front and none created; otherwise the new one is tracked and brought to the front exactly when it was created, hidden from capture or not; the result says which |
| HiddenWindow.Launcher.Close | agent/internal/hiddenbrowser/hiddenbrowser.go:146-150 | takes only steps of the protocol: the goroutine of a closed window clears the tracked window and destroys its own |
| HiddenWindow.StepInv | agent/internal/hiddenbrowser/hiddenbrowser.go:114-182 | every step of every interleaving keeps: a live window is tracked or expected by the call inside the mutex |
| HiddenWindow.OneWindow | agent/internal/hiddenbrowser/hiddenbrowser.go:114-182 | at most one window between creation and its clear step, clears only clear the goroutine's own, Open never uses a destroyed window |
| TrayIcon.Tray.Publish | agent/internal/trayicon/tray_windows.go:560-571 | the icon loaded from the file, owned, or else the stock icon, not owned |
| TrayIcon.Tray.Teardown | agent/internal/trayicon/tray_windows.go:582-597 | among other goroutines' swaps, destroys the icon in place, if it is owned, for the first time and never the stock one |
| TrayIcon.Tray.Swap | agent/internal/trayicon/tray_windows.go:717-720 | exchanges the icons under the mutex and hands the previous one, with its ownership, to the caller |
| TrayIcon.Tray.SetIconPath | agent/internal/trayicon/tray_windows.go:707-731 | among the teardown and other calls, puts its icon in place of the previous one, is shown if the shell has the tray's icon throughout and takes it, and then destroys the previous icon, if it is owned, for the first time and never the stock one |
| TrayIcon.DestroyedAtMostOnce | agent/internal/trayicon/tray_windows.go:582-597 | under every interleaving of the teardown with SetIconPath calls no handle is destroyed twice, and the stock icon never |
| TrayIcon.LateModifyDestroysTwice | agent/internal/trayicon/tray_windows.go:707-731 | if a modification could succeed after the teardown, a loaded icon waiting to be swapped in would destroy the final one again |
| TrayIcon.TeardownDuringSetIconPath | agent/internal/trayicon/tray_windows.go:582-597 | a run that reaches such a state |
| TaskDialog.Marshal | agent/internal/installerui/taskdialog_windows.go:115-143 | the buffer is the fields in order, little-endian, with nothing between them |
| TaskDialog.Contiguous | agent/internal/installerui/taskdialog_windows.go:115-143 | the offsets written are contiguous from 0 to 160 |
| TaskDialog.LittleEndian | agent/internal/installerui/taskdialog_windows.go:115-143 | in a number one byte stands for itself, and what comes first weighs least |
| TaskDialog.WindowFields | agent/internal/installerui/taskdialog_windows.go:116-126 | size, window, flags and headings are read back at their byte offsets 0 to 60 |
| TaskDialog.ButtonFields | agent/internal/installerui/taskdialog_windows.go:127-132 | the buttons at 60 to 92, the default ones in two's complement |
| TaskDialog.TextFields | agent/internal/installerui/taskdialog_windows.go:133-136 | the further texts at 92 to 124 |
| TaskDialog.FooterFields | agent/internal/installerui/taskdialog_windows.go:137-141 | footer, callback and width at 124 to 160 |
| TaskDialog.UnmarshalPacked | agent/internal/installerui/taskdialog_windows.go:72-143 | reading at the declared offsets recovers every field and the size, negative numbers included |
| TaskDialog.PackedUnmarshal | agent/internal/installerui/taskdialog_windows.go:107-143 | every 160-byte buffer that names its size is the layout of what is read from it |
| TaskDialog.PackTaskDialogButtons | agent/internal/installerui/taskdialog_windows.go:159-168 | the loop builds the array of 12-byte buttons |
| TaskDialog.ButtonAt | agent/internal/installerui/taskdialog_windows.go:145-168 | button i has its identifier, in two's complement, at byte 12 i and its text at 12 i + 4 |
| TaskDialog.ReadPackedButtons | agent/internal/installerui/taskdialog_windows.go:145-168 | any list of buttons of any length is read back, negative ids included |
| TaskDialog.PackedReadButtons | agent/internal/installerui/taskdialog_windows.go:145-168 | every array of whole buttons is the packing of what is read from it |

## Left out

- RunLoop.Client.Run: makes at most a given number of rounds, because the loop need not end; the transition
  system has no such bound. What others do comes between its steps.
- The loops of pingLoop, writeLoop and telemetryLoop: they need not end, so they are steps of the transition
  systems, and WriteOnce one round of writeLoop; ReadLoop takes as many messages as come in.
- The interleavings themselves are on values; the classes beside them take the same steps on their fields.
- EngineManager.Machine.WaitForListener: does not model the retries until the timeout, only whether a
  listener answered; any listener will do, as in the code.
- HiddenWindow.Launcher.Open: takes the steps of closing windows, of which there may be any number, at two places,
  because Open holds the mutex throughout; the transition system has them anywhere.
- TaskDialog.Marshal: pointers are 64-bit numbers; that what they point to stays alive is not modelled.
- TrayIcon.DestroyedAtMostOnce: says nothing of what is shown; the shell may briefly be given an icon that
  has just been destroyed, because the handle is read before the call and not under the mutex.
- Liveness.IdleLinkSurvivesIff: assumes that pings go out on time and that dispatching does not block.
- Extract.ExtractZip: the directories MkdirAll creates are recorded without their ancestors; file modes and
  partly created directory chains are not modelled.
- Managed mode's service control: polling of an external service manager.
- TLS, WebSocket framing, HTTP and its redirects, enrolment and certificates.
- Terminal, screen and inventory-on-hello messages: each only starts another sender.
- Win32, COM, WebView2, the registry and access control lists, except for their outcomes.
- Installing and uninstalling the light agent, its wizard, menus, tooltips, prompts, logging,
  configuration and inventory collection.
- The task dialog's handle and its callbacks; the menu items and the click handler of the tray.
- The fairness of the scheduler and real clocks: time is an integer and progress is not claimed.
- Case-insensitive names and links on disk; reuse of a process's number by the operating system.
