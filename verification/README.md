# Verified models of the realtime limiter, browser control, key vault and client folds

Dafny models of the parts of this repository whose correctness spans many calls, threads or messages. Each component has
a state machine or a set of functions, the loops and objects that carry it out in place, and theorems over every run.
`dafny verify dfyconfig.toml` checks everything.

| Component | Files |
|---|---|
| Sliding-window rate limiter | `RateLimitKeys`, `RateLimitModel`, `RateLimitQueue`, `RateLimitHistory`, `RateLimitGuarantees`, `RateLimitSweep`, `RateLimiter` |
| Private human control of the shared browser | `BrowserModel`, `BrowserFence`, `BrowserPromises`, `BrowserLedger`, `BrowserService` |
| Key vault | `VaultHex`, `VaultModel`, `VaultInvariant`, `VaultConsistency`, `VaultPromises`, `VaultBurn`, `VaultContents` |
| Gateway reconnect machine | `GatewayModel`, `GatewayPromises`, `GatewayHistory`, `Gateway` |
| App bundle asset crawl | `AssetWorklist` |
| Saved documents and selections | `TextLines`, `DocumentReader`, `DocumentTables`, `DocumentPrinter`, `CopiedMarkdown`, `MarkdownCode`, `MarkdownSpan`, `MessageCode`, `RevisionDiff` |
| Task list, read receipts, reactions | `TaskList`, `ReadReceipts`, `Reactions` |
| Shared | `Option`, `Utf8`, `SortedLists`, `FiniteSets` |

How each is modelled:

- **Limiter.** Time is a natural number; elapsed time saturates at zero. Theorems that need it take a non-decreasing
  clock and positive windows; the cap and the queue entry of each key need neither. A ghost history records every attempt
  ever accepted, and the limiter is compared with the one that keeps them all.
- **Browser control.** A step is what one coroutine does between two awaits. A restart keeps the database tables and
  loses everything else, and may come anywhere, also between the two commits of a handback. `perform` is opaque: it ends
  with some output or fails. Cancelling is a `perform` that ends in failure.
- **Vault.** Threads interleave step by step: the one-time unlock that may finish late, the mutex, the burn flag, each
  file operation of the atomic write. Disk and keychain outlive a crash. Sealing is an injective pairing of key and
  contents. The outside may make any file or keychain operation fail.
- **Gateway.** The browser side (sockets, timers, requests) is part of the state, so what is still running after a field
  is overwritten can be talked about.
- **Documents.** Strings are sequences of characters. The readers of sections 2.1, 4.5, 4.8 and 6.1 of CommonMark 0.31.2
  are written from that text and know nothing of the printer; two readers of this repository are modelled beside them.

Where the code does less than it might be taken to promise, a theorem gives the case and the exact condition:

- A pair check on two names that cut to one counter counts twice and can pass the limit (`PairOverfillsExactlyWhen`).
- A keychain value of 64 bytes with a character across a pair makes `from_hex` panic instead of reporting a malformed
  value (`PanicsExactlyWhen`).
- A burn that reported success may be followed by an unlock that stores a key, so that the next launch is empty but not
  a first run. It can be exactly while the unlock may still create one (`BurnLeavesNoKeyExactlyWhen`).
- Overlapping `connect()` calls make two drivers (`ConnectIsSafeExactlyWhen`) and can leave a live socket after
  `disconnect()` (`DisconnectHoldsExactlyWhen`).
- A heartbeat can run over, and close, a socket that is still being dialled. After a `connect()` it can exactly if at
  the call a ticket was being fetched, a heartbeat was running, or a socket other than the current one was live
  (`ConnectLeavesHeartbeatExactlyWhen`).
- Copying squeezes line feeds inside code blocks too: by CommonMark a copied block comes back line for line exactly if
  its text, with a line feed on either side, has no three in a row, and does not end in a carriage return
  (`CopiedBlockIsRecovered`).
- A code span comes back by CommonMark exactly if its text is not blank, its lines all belong to one paragraph and none
  after the first is indented (`CopiedSpanIsRecoveredExactlyWhen`), and no backtick follows it
  (`SpanEndsItselfExactlyWhen`).
- The client's own reader takes any three backticks for a fence. It gives back a printed block exactly if the text has
  no three backticks in a row (`MessageBlockExactlyWhen`), and takes a printed span for a span exactly if the text has no
  two in a row (`SpanStaysWordsExactlyWhen`): a longer fence does not help there.
- Reaction updates are folded as counts, so a repeated or overtaken event leaves wrong groups (`ReactionStep`).
- Polls that bring two contents under an id's highest version show whichever came last
  (`OrderIsUnobservableExactlyWhen`).

## Model

| member | source | states |
|---|---|---|
| RateLimitKeys.TruncateKey | server/src/ratelimit.rs:269-276 | the key returned is the longest prefix that fits in 128 bytes and ends on a character boundary |
| RateLimitKeys.CutKeepsWholeChars | server/src/ratelimit.rs:269-276 | a cut key holds whole UTF-8 characters in at most 128 bytes, wastes at most three of them, and cutting twice is cutting once |
| RateLimitKeys.SharedPrefixSharesCounter | server/src/ratelimit.rs:18-20 | two texts that agree on their first 128 bytes are one counter, even if the 128th byte falls inside a character |
| RateLimiters.Inner.Spent | server/src/ratelimit.rs:194-202 | in place: trims the key's hit list, creates nothing, and answers whether the limit is used up |
| RateLimiters.Inner.Record | server/src/ratelimit.rs:207-229 | in place: the whole new map and queue, with the eviction, window restart and compaction branches, and the work done |
| RateLimiters.Inner.EvictOldestWhileFull | server/src/ratelimit.rs:233-242 | in place: pops queue entries until one more key fits; only matching entries remove keys |
| RateLimiters.Inner.DropStaleQueueEntries | server/src/ratelimit.rs:245-248 | in place: keeps exactly the entries that match their key's current window |
| RateLimiters.Inner.SweepExpired | server/src/ratelimit.rs:252-266 | in place: drops keys with nothing left in their own window, at most once per interval |
| RateLimiters.RateLimiter.CheckAt | server/src/ratelimit.rs:170-182 | decision and new state of one map are those of the step the whole-run theorems are about; the other map is untouched |
| RateLimiters.RateLimiter.CheckPairAt | server/src/ratelimit.rs:122-142 | the same for the pair check: a spent block leaves the key untouched, a spent key leaves both uncounted, otherwise both are counted, block first |
| RateLimiters.RateLimiter.SpentUnauth | server/src/ratelimit.rs:146-149 | the same for the look that counts nothing |
| RateLimitQueue.RunValid | server/src/ratelimit.rs:207-266 | the representation invariant, the bounds and the cost account hold after every run of calls with a non-decreasing clock and positive windows |
| RateLimitQueue.QueueShape | server/src/ratelimit.rs:207-248 | in every reachable state each queue entry belongs to a tracked key, each tracked key has exactly one matching entry and it is the key's last, starts never decrease along the queue, and the cap holds |
| RateLimitQueue.AmortisedCost | server/src/ratelimit.rs:22-24 | over any run, eviction pops plus compaction scans are at most twice the recorded attempts; the queue is never longer than twice the tracked keys plus 1024 |
| RateLimitQueue.EvictsTheOldest | server/src/ratelimit.rs:207-242 | in the very state an attempt is recorded in (after the sweep and the look, and for a pair's second key after its first), a key is evicted exactly when the recorded key is new and the cap is reached; then one key, and no tracked key's window began earlier |
| RateLimitQueue.RecordingEnds | server/src/ratelimit.rs:207-229 | the last of those states is the one an allowed call leaves |
| RateLimitHistory.RunRefines | server/src/ratelimit.rs:170-229 | what the limiter keeps for each key answers every question its history since its last eviction answers |
| RateLimitHistory.DecidesByHistory | server/src/ratelimit.rs:170-202 | a call is allowed if and only if fewer than its limit of accepted attempts lie in (now - window, now], counted since the key's last eviction, hence over all history for keys never evicted |
| RateLimitGuarantees.RefinesNaive | server/src/ratelimit.rs:170-229 | with no eviction, every decision and the record of accepted attempts are those of the limiter that never forgets |
| RateLimitGuarantees.SweepingIsUnobservable | server/src/ratelimit.rs:252-266 | limiters with different caps and sweep thresholds answer every call alike while neither evicts |
| RateLimitGuarantees.RoomForAll | server/src/ratelimit.rs:8-10 | a limiter asked about no more names than it has places never evicts |
| RateLimitGuarantees.NeverOverfull | server/src/ratelimit.rs:170-182 | no half-open interval one window long, wherever it ends, holds more accepted attempts than the key's limit |
| RateLimitGuarantees.PairOnOneName | server/src/ratelimit.rs:122-142 | a pair naming one counter twice with a limit of one puts two attempts into it |
| RateLimitGuarantees.PairOverfillsExactlyWhen | server/src/ratelimit.rs:122-142 | a pair call keeps both counters within their limits if and only if it does not name one counter twice with a single attempt left |
| RateLimitGuarantees.PairsConserve | server/src/ratelimit.rs:122-142 | a block recorded only together with its keys has, in any interval, exactly the sum of its keys' accepted attempts |
| RateLimitGuarantees.BlockCountsItsKeys | server/src/ratelimit.rs:122-142 | what the limiter itself counts for the block is at any moment the sum of what it counts for its keys, none of them evicted |
| RateLimitGuarantees.RefusalCountsNothing | server/src/ratelimit.rs:122-142 | a refused call changes no count of any key |
| RateLimitGuarantees.CapAlwaysHolds | server/src/ratelimit.rs:207-242 | whatever the clock and windows do, the cap holds and every tracked key can be evicted |
| RateLimitSweeps.SweepsOnSchedule | server/src/ratelimit.rs:170-182 | a call sweeps exactly if it finds more keys than the threshold and no sweep in the last ten seconds; a mere look never sweeps |
| RateLimitSweeps.SweepKeepsExactlyTheBusy | server/src/ratelimit.rs:252-266 | a sweep keeps exactly the tracked keys with an accepted attempt inside their own windows, counted from the history |
| RateLimitSweeps.SweptCallsEvictOnlyAmongBusy | server/src/ratelimit.rs:170-266 | a call that sweeps evicts only where the cap is reached by keys that all have accepted attempts inside their own windows |
| RateLimitSweeps.WindowsBeginStretches | server/src/ratelimit.rs:207-229 | in every run a tracked key's window began with the attempt that began its latest stretch: exactly an attempt a full window after the last one moves it to the back of the eviction order |
| BrowserService.Engine.Execute | worker/browser-engine/service.py:241-260 | in place: refusals, the cached answer, or the one start an identity gets, as the step the theorems are about |
| BrowserService.Engine.Resume | worker/browser-engine/service.py:261-281 | in place: completion, suppression of a drained result, or failure, with the cache account |
| BrowserService.Engine.Close | worker/browser-engine/service.py:271-283 | in place: after the page is closed the slot is free again |
| BrowserService.BrowserControl.TakeOver | worker/browser-engine/control.py:105-118 | in place: retired, matching and foreign sessions; fences before the drain |
| BrowserService.BrowserControl.Settle | worker/browser-engine/control.py:117-121 | in place: control passes only after a finished drain and with a usable browser; otherwise the fence stays |
| BrowserService.BrowserControl.GiveBack | worker/browser-engine/control.py:122-128 | in place: first commit, the session is retired |
| BrowserService.BrowserControl.Release | worker/browser-engine/control.py:129 | in place: second commit, the model has control again |
| BrowserService.BrowserControl.Frame | worker/browser-engine/control.py:122-137 | in place: a capture holds the lock, only for the matching session and only while a human has control |
| BrowserService.BrowserControl.Input | worker/browser-engine/control.py:138-156 | in place: an input's identity is recorded before it is sent; a recorded one is refused |
| BrowserService.BrowserControl.InputDone | worker/browser-engine/control.py:157-170 | in place: a failed page call leaves the phase uncertain |
| BrowserFence.RunValid | worker/browser-engine/control.py:82-170 | the invariant of fence, lock, task table, records, inputs and cache holds after every run, restarts included |
| BrowserPromises.NeverBesideAHuman | worker/browser-engine/service.py:241-260 | while the phase is human or uncertain no action runs and none can start; an input is in flight only while a human has control |
| BrowserPromises.ReleasedOnlyToTheAgent | worker/browser-engine/service.py:241-268 | every output released, fresh or cached, is released at an instant when the phase is agent, and is what the one run of that identity under those terms returned |
| BrowserPromises.OneInFlight | worker/browser-engine/service.py:254-283 | at most one record is in flight and it owns `active` |
| BrowserPromises.PerformedOnce | worker/browser-engine/service.py:245-260 | within one process no identity is performed twice |
| BrowserPromises.OutcomesAreFinal | worker/browser-engine/service.py:245-252 | until a restart a completed record keeps its output, and one that did not complete never gives an output |
| BrowserPromises.DrainedResultIsNeverReleased | worker/browser-engine/service.py:262-272 | a result that finished while control passed to a human is suppressed, then and for ever in that process |
| BrowserPromises.InputsAtMostOnce | worker/browser-engine/control.py:151-167 | over all runs and restarts each input identity is sent at most once, and is recorded before |
| BrowserPromises.OnlyGiveBackFrees | worker/browser-engine/control.py:124-129 | private control ends only by the release after a matching give-back, its session retired; not by failure, stopping or crash |
| BrowserPromises.AgentRowIsRetired | worker/browser-engine/control.py:105-110 | a row in phase agent names a retired session, so the refusal at line 110 never fires |
| BrowserPromises.NeverPrivateAgain | worker/browser-engine/control.py:106-107 | a released session never holds private control again, across restarts |
| BrowserPromises.CrashBetweenCommitsStaysFenced | worker/browser-engine/control.py:127-129 | a crash between the two commits leaves the fence up; only a matching give-back completes it |
| BrowserPromises.LettingGo | worker/browser-engine/control.py:101-170 | from every reachable lock state the holder can let go, and that keeps the fence unless a handback was under way |
| BrowserPromises.AlwaysAWayBack | worker/browser-engine/control.py:124-129 | from every reachable private state one matching give-back returns control to the model |
| BrowserPromises.CacheIsBounded | worker/browser-engine/service.py:255-266 | at most 1024 records, and one completion at most overshoots the cache cap |
| BrowserLedger.ExecuteAnswers | worker/browser-engine/service.py:241-260 | over all runs and restarts every answer of `execute`, by the history alone: refused in private; a known identity gets its output exactly if it came back, under the same terms; a new one is started exactly if the engine is up, idle and has room |
| BrowserLedger.RetryGetsTheOutput | worker/browser-engine/service.py:246-252 | after an output came back, a retry gets that output whenever the model has control, until the process restarts |
| BrowserLedger.ExecuteStartsOne | worker/browser-engine/service.py:257-260 | where the answer is to wait exactly one running action is added, under those terms; otherwise nothing changes |
| BrowserLedger.RunUp | worker/browser-engine/service.py:192-279 | the engine is up as it started, until it is stopped or an action is interrupted, raises or gives too much |
| BrowserLedger.CancelAnswers | worker/browser-engine/service.py:285-299 | once a cancel request answers, it says whether the action came back, and knows every identity that was started |
| BrowserLedger.TakeOverExactlyWhen | worker/browser-engine/control.py:105-115 | a take-over is admitted if and only if its session was never given back and nobody else holds the fence; it fences for that session and owner and waits for the one unfinished action |
| BrowserLedger.HumanExactlyWhen | worker/browser-engine/control.py:116-121 | control reaches the human if and only if the wait ended with a finished action, or none was waited for, and the browser is usable |
| BrowserLedger.TakeOverSucceeds | worker/browser-engine/control.py:105-121 | on an idle engine that is up a take-over by a new session ends in human control |
| BrowserLedger.HolderExactlyWhen | worker/browser-engine/control.py:122-137 | give-back and frame are a mismatch if and only if the row is not exactly this session's and owner's; a frame needs human control |
| BrowserLedger.InputExactlyWhen | worker/browser-engine/control.py:138-160 | an input is accepted if and only if it is well formed, from the holder, while a human has control, and its identity was never accepted in any process; then nothing but sending it, or a crash, comes next |
| BrowserLedger.UncertainExactlyWhen | worker/browser-engine/control.py:165-168 | a failed page call, and only that, leaves an input uncertain |
| BrowserLedger.RestartForgets | worker/browser-engine/service.py:254-260 | a new process keeps the database and nothing else, so a performed identity is performed anew if asked for again |
| VaultHex.ToHexText | client/src-tauri/src/vault.rs:274-280 | the loop writes the two digits of each byte |
| VaultHex.ReadHex | client/src-tauri/src/vault.rs:282-291 | the loop reads 32 pairs, or says malformed, or panics where a slice would split a character |
| VaultHex.HexRoundTrip | client/src-tauri/src/vault.rs:274-291 | every 32-byte key survives printing and parsing |
| VaultHex.PanicsExactlyWhen | client/src-tauri/src/vault.rs:282-291 | reading a stored value panics if and only if it has 64 bytes and a character crosses the end of a pair after readable pairs |
| VaultHex.SomeValuePanics | client/src-tauri/src/vault.rs:282-291 | such a value exists, so a malformed keychain entry does not always lead to Locked |
| VaultHex.DigitsExactlyWhen | client/src-tauri/src/vault.rs:274-291 | printed digits are lower-case; digits of both cases are read |
| VaultHex.PairExactlyWhen | client/src-tauri/src/vault.rs:282-291 | a pair is read as a byte exactly if it is two digits of it, or a plus sign and one digit |
| VaultHex.ReadsExactlyWhen | client/src-tauri/src/vault.rs:282-291 | a stored value is read as a key exactly if it is 64 bytes whose pairs read as the key's bytes |
| VaultInvariant.RunValid | client/src-tauri/src/vault.rs:126-197 | mutex, unlock cell, burn flag, files and every thread's position agree after every interleaving, crashes included, from any disk and keychain |
| VaultConsistency.RunAgrees | client/src-tauri/src/vault.rs:154-164 | disk, keychain, RAM and what was saved, removed and moved aside agree after every run from a first run; a sealed file is there exactly when something was saved and no burn or reset has taken it since |
| VaultPromises.BurnIsFinal | client/src-tauri/src/vault.rs:180-196 | once a burn's local part has returned with its deletes done, no vault file exists in any later state, whatever writes and unlocks were in flight |
| VaultPromises.LateSnapshotIsPostBurn | client/src-tauri/src/vault.rs:126-152 | a snapshot begun with the burn flag up returns the edits made since then, applied in order to nothing |
| VaultPromises.BurnedSecretsStayGone | client/src-tauri/src/vault.rs:137-196 | a value nobody is still waiting to write is never handed to a snapshot begun after the flag rose, wherever it was before |
| VaultPromises.SealedFileOpens | client/src-tauri/src/vault.rs:154-164 | in every state of an untampered installation a sealed file whose key no burn has dropped opens under the keychain's key and holds the last successful write |
| VaultPromises.NoKeyOverSavedKeys | client/src-tauri/src/vault.rs:307-326 | no step of any interleaving stores a key while a sealed file exists |
| VaultPromises.SealedFileIsNeverPartial | client/src-tauri/src/vault.rs:261-272 | each step leaves the sealed path as it was, or is a write's rename that puts a whole file sealing RAM there, or a burn's deletion, or a reset's move that leaves the same bytes aside; nothing else ever empties it |
| VaultPromises.LaunchDecides | client/src-tauri/src/vault.rs:307-367 | an undisturbed launch ends as the decision table says, for every disk and every stored value |
| VaultPromises.CrashLosesNothingSaved | client/src-tauri/src/vault.rs:154-164 | after a crash at any moment the next launch has in RAM exactly the last successful write, unless a burn or a reset has taken it away since; where a burn dropped the key and failed to delete the file, and only there, it finds the vault locked |
| VaultPromises.WithoutBurnOrResetNothingIsLost | client/src-tauri/src/vault.rs:154-164 | where nobody burns or resets, the next launch has exactly the last successful write, whatever ran, failed or crashed |
| VaultPromises.ResetKeepsTheSavedKeys | client/src-tauri/src/vault.rs:211-231 | the file a reset moved aside stays whole, holds what was saved then, and opens under the key the keychain still has, until a burn deletes it or drops its key |
| VaultPromises.ResetKeepsTheKey | client/src-tauri/src/vault.rs:235-242 | from any disk and keychain, a stored key goes only by a burn, or by a reset that found it malformed; none is overwritten |
| VaultPromises.ResetOrBurnThenRelaunch | client/src-tauri/src/vault.rs:444-499 | after a successful reset or burn the next launch unlocks to an empty vault; it makes a new key exactly when the keychain then has none |
| VaultPromises.LeftoverFileLocksOut | client/src-tauri/src/vault.rs:460-487 | a sealed file left behind with no key locks the next launch |
| VaultBurn.BurnLeavesNoKeyExactlyWhen | client/src-tauri/src/vault.rs:137-196 | no way on in a process has a burn report success and yet a key in the keychain, if and only if the unlock has its answer or can only get one that creates no key |
| VaultBurn.BurnThenFirstRun | client/src-tauri/src/vault.rs:460-499 | in that case the launch after a successful burn is a first run: a new key, an empty vault |
| VaultBurn.LateUnlockStoresAKey | client/src-tauri/src/vault.rs:137-152 | an unlock under way when a burn begins can store a key after a burn that reported success |
| VaultContents.EditChangesWhatItNames | client/src-tauri/src/vault.rs:413-440 | a put gives its name the value, a drop takes exactly the named keys out, every other name is as it was |
| VaultContents.SnapshotSays | client/src-tauri/src/vault.rs:404-411 | in every interleaving and from any disk, a snapshot holds a name exactly as the last edit that mentions it says, or, if none does, as the sealed file had it at the unlock; nothing from before a wipe |
| VaultContents.WriteIsSaved | client/src-tauri/src/vault.rs:154-175 | a write to an unlocked, unburned vault whose own operations succeed ends with the sealed file holding what the edit says and everything else as it was |
| VaultContents.FailedWriteCleansUp | client/src-tauri/src/vault.rs:261-272 | a write that fails before the rename leaves the sealed file alone and deletes the temp file |
| VaultContents.LockIsNeverLeft | client/src-tauri/src/vault.rs:154-196 | in every interleaving the mutex is held only by a thread that can go on and will give it back |
| VaultContents.UnlockFailures | client/src-tauri/src/vault.rs:307-367 | what each failure inside the unlock leaves: locked on the keychain or on the vault, nothing on disk changed; a file that cannot be ruled out counts as one |
| VaultContents.SnapshotIsAnswered | client/src-tauri/src/vault.rs:404-411 | a snapshot of an unlocked vault is answered with RAM as it is, or with nothing after a burn |
| VaultContents.ResetSucceedsExactlyWhen | client/src-tauri/src/vault.rs:442-455 | a reset of a vault locked on what is stored succeeds when disk and keychain answer, unless the stored value makes its reader panic; then the file stands aside and only a malformed key is gone |
| VaultContents.BurnReportsExactlyWhen | client/src-tauri/src/vault.rs:460-499 | a burn reports success exactly if every file was gone when it tried and the key is gone in the end |
| VaultContents.BurnSucceeds | client/src-tauri/src/vault.rs:180-196 | a burn whose deletions succeed leaves no file, no key and empty RAM, and reports success, from any state and disk |
| Gateways.Gateway.Connect | client/src/gateway.ts:171-182 | in place, up to the ticket fetch: cancels the timer, detaches the socket, leaves the heartbeat |
| Gateways.Gateway.OnTicket | client/src/gateway.ts:192-231 | in place: a socket, unless the user hung up meanwhile |
| Gateways.Gateway.OnTicketError | client/src/gateway.ts:181-191 | in place: signed out on 401, otherwise a reconnect is scheduled |
| Gateways.Gateway.OnOpen | client/src/gateway.ts:196-201 | in place: attempts reset, heartbeat started |
| Gateways.Gateway.OnClose | client/src/gateway.ts:221-225 | in place: heartbeat stopped, reconnect scheduled unless the user hung up |
| Gateways.Gateway.OnTick | client/src/gateway.ts:257-269 | in place: a stale last frame closes the current socket |
| Gateways.Gateway.DetachSocket | client/src/gateway.ts:235-244 | in place: handlers come off before the close |
| Gateways.Gateway.ScheduleReconnect | client/src/gateway.ts:278-287 | in place: any pending timer is replaced |
| Gateways.Gateway.Disconnect | client/src/gateway.ts:289-297 | in place: timer, heartbeat and socket all go |
| GatewayPromises.NoOrphans | client/src/gateway.ts:171-297 | in every run, overlapping calls included, the only timer and heartbeat that run are the ones the fields name |
| GatewayPromises.ExactlyOneDriver | client/src/gateway.ts:171-297 | with serial connects at most one of fetch, timer and live socket exists; exactly one after the first connect unless the user hung up or was signed out |
| GatewayPromises.ConnectIsSafeExactlyWhen | client/src/gateway.ts:171-182 | the next connect leaves exactly one driver if and only if no ticket is being fetched |
| GatewayPromises.OverlapMakesTwo | client/src/gateway.ts:171-182 | in any reachable state a connect over a pending fetch makes two drivers |
| GatewayPromises.OverlapLeavesASocket | client/src/gateway.ts:173-194 | two overlapping connects end with two live sockets, and disconnect leaves one of them |
| GatewayPromises.DisconnectHoldsExactlyWhen | client/src/gateway.ts:289-297 | in every run, nothing appears between disconnect and the next connect if and only if no socket but the current one was still live at the disconnect |
| GatewayPromises.DisconnectHolds | client/src/gateway.ts:289-297 | so it is in every run whose connects never overlapped a ticket fetch: no socket, timer or heartbeat until the next connect, even with a ticket on its way |
| GatewayPromises.HeartbeatSparesTheDialling | client/src/gateway.ts:257-276 | where connect is called only with no ticket being fetched and no heartbeat running, a heartbeat only ever runs over a socket that has opened |
| GatewayPromises.ConnectLeavesHeartbeatExactlyWhen | client/src/gateway.ts:171-276 | in every run, overlapping calls included: whatever happens between a connect and the next one, no heartbeat runs over a socket being dialled, if and only if at the call no ticket was being fetched, no heartbeat was running and no socket but the current one was live |
| GatewayPromises.SerialConnectLeavesHeartbeat | client/src/gateway.ts:171-276 | where connects never overlapped a ticket fetch before: if and only if at the call no ticket was being fetched and no heartbeat was running |
| GatewayPromises.StaleHeartbeatClosesTheNewSocket | client/src/gateway.ts:257-269 | a heartbeat running at a connect, if it then finds the last frame old, closes the socket being dialled |
| GatewayPromises.BackoffBounds | client/src/gateway.ts:283-286 | waits never shrink, double up to the cap, and stay between 0.7 and 30 seconds after jitter |
| GatewayHistory.SignedOutExactlyWhen | client/src/gateway.ts:181-191 | the user becomes signed out by a refused token and by nothing else |
| GatewayHistory.KeepsTrying | client/src/gateway.ts:171-297 | while no token is refused and connects do not overlap, exactly one driver exists from the first connect until the user hangs up |
| GatewayHistory.FailureRetriesExactlyWhen | client/src/gateway.ts:181-191 | a failed ticket leaves a timer for the next attempt if and only if the token was not refused and the user has not hung up |
| GatewayHistory.WaitsDouble | client/src/gateway.ts:278-287 | over serial runs a reconnect timer is set for a second, doubled for each further loss in a row, at most thirty; an opened connection starts anew |
| GatewayHistory.TickClosesExactlyWhen | client/src/gateway.ts:257-269 | a heartbeat closes the current socket if and only if a connection opened or a frame came in once, but nothing for more than forty seconds |
| GatewayHistory.ErrorCloses | client/src/gateway.ts:227-229 | an error closes its socket and does nothing else |
| GatewayHistory.StatusTells | client/src/gateway.ts:165-297 | over serial runs the status says what drives the connection: connecting, connected, or disconnected while a timer waits or after hanging up |
| AssetWorklist.ListAssets | scripts/app-bundle-assets.py:51-89 | terminates; lists exactly when the build is acceptable: an index entry, at most 512 reachable assets, all fetchable, a stylesheet among them; the set listed is exactly what is reachable; each failure is justified |
| AssetWorklist.DependenciesAre | scripts/app-bundle-assets.py:78-82 | an asset is linked from another exactly if that is a script and one of its references resolves to it |
| AssetWorklist.Sorted | scripts/app-bundle-assets.py:88 | the listing holds each asset, in the order asked for |
| AssetWorklist.ListingIsDetermined | scripts/app-bundle-assets.py:86-89 | a site has one listing, whatever order the set is walked in: no repetitions, every entry before every dependency |
| SortedLists.OrderedIsUnique | scripts/app-bundle-assets.py:88 | a strict order leaves one list of given elements |
| DocumentReader.Read | client/src/burrow/ResearchComparison.tsx:5-29 | the loop terminates and gives exactly the parts of the one-block-at-a-time reading |
| DocumentTables.RuleExactlyWhen | client/src/burrow/ResearchComparison.tsx:14 | a separator cell is three or more dashes with or without a colon at either end, and nothing else |
| DocumentTables.LaidReads | client/src/burrow/ResearchComparison.tsx:7 | the cells of a row laid out with any white space, outer pipes or none, and escaped pipes inside, are its pieces, trimmed |
| DocumentTables.RowExactlyWhen | client/src/burrow/ResearchComparison.tsx:16 | a line is a row exactly if it has a pipe |
| DocumentTables.TableExactlyWhen | client/src/burrow/ResearchComparison.tsx:13-26 | outside a fence a line heads a table if and only if it has 2 to 20 cells, the line under it as many rules, and 1 to 100 rows of as many cells follow; then all of them are that table, otherwise the line is text |
| DocumentTables.MarkerExactlyWhen | client/src/burrow/ResearchComparison.tsx:11 | a line is a fence of a mark and length exactly if after white space it has that many of it, at least three |
| DocumentTables.FenceExactlyWhen | client/src/burrow/ResearchComparison.tsx:11-12 | outside a fence exactly a fence line opens one; inside, exactly one of the same mark, at least as long, ends it |
| DocumentTables.FencedUntilClosed | client/src/burrow/ResearchComparison.tsx:11-15 | from an opening line every line is text until the first that closes the fence, and reading begins again exactly there |
| DocumentReader.ReadingIsLossless | client/src/burrow/ResearchComparison.tsx:5-29 | for every list of lines the parts account for each line once, in order; no table begins inside an open fence; each is rectangular, 2 to 20 columns, 1 to 100 rows |
| DocumentReader.FencedCodeStaysText | client/src/burrow/ResearchComparison.tsx:11-15 | nothing between a fence and its closing line is read as a table, and reading resumes as if it were not there |
| DocumentReader.UnclosedCodeStaysText | client/src/burrow/ResearchComparison.tsx:11-15 | a fence never closed keeps everything after it text |
| DocumentPrinter.PrintedIsClean | client/src/burrow/SelectionActions.tsx:33 | a printed cell is trimmed, on one line, and every pipe in it is escaped, whatever the cell held |
| DocumentPrinter.PrintedSays | client/src/burrow/SelectionActions.tsx:33 | a printed cell, its pipes unescaped, is the trimmed text with empty lines left out and one space for each break |
| DocumentPrinter.PaddedAt | client/src/burrow/SelectionActions.tsx:34-35 | each printed cell stands where its row has it, short rows filled up at the end with empty cells |
| DocumentPrinter.RowReadsBack | client/src/burrow/SelectionActions.tsx:35 | the reader splits a printed row into exactly its cells |
| DocumentPrinter.PrintedTableIsRead | client/src/burrow/SelectionActions.tsx:32-37 | anywhere outside a fence a printed table is read as a table if and only if it has 2 to 20 columns and 1 to 100 body rows, with the printed cells |
| DocumentPrinter.TableRoundTrip | client/src/burrow/SelectionActions.tsx:32-37 | reading what was printed gives back the table, short rows padded, if and only if it is within those bounds, for any cell texts |
| CopiedMarkdown.SqueezesExactlyWhen | client/src/burrow/SelectionActions.tsx:86 | copying changes exactly the strings with three line feeds in a row, and shortens those |
| CopiedMarkdown.CopiedAround | client/src/burrow/SelectionActions.tsx:86 | a solid piece of the printed text is squeezed by itself, whatever is printed around it |
| CopiedMarkdown.CopiedTable | client/src/burrow/SelectionActions.tsx:32-86 | a printed table is copied line for line, whatever its cells hold |
| CopiedMarkdown.CopiedTableRoundTrip | client/src/burrow/SelectionActions.tsx:32-86 | reading a copied table gives back that table and nothing else, if and only if it has 2 to 20 columns and 1 to 100 body rows |
| CopiedMarkdown.CopiedBlock | client/src/burrow/SelectionActions.tsx:12-86 | a copied code block is the block printed for what squeezing leaves of its text, under the same fence |
| CopiedMarkdown.CopiedBlockIsRecovered | client/src/burrow/SelectionActions.tsx:12-86 | for every text, a reader following sections 2.1 and 4.5 of CommonMark 0.31.2 closes the copied block at its own fence; it gets exactly the text's lines if and only if the text, with a line feed on either side, holds no three line feeds in a row and does not end in a carriage return |
| CopiedMarkdown.CopiedBlockStaysText | client/src/burrow/ResearchComparison.tsx:11-15 | the saved-document reader keeps a copied code block text, whatever it holds, and carries on after it |
| DocumentPrinter.PrintedBlockLines | client/src/burrow/SelectionActions.tsx:12-16 | a printed code block is its fence, the text's lines and the fence, between empty lines |
| DocumentPrinter.PrintedBlockStaysText | client/src/burrow/SelectionActions.tsx:12-16 | whatever a printed code block holds, the saved-document reader keeps it text and carries on after it |
| MarkdownCode.PrintedBlockIsRecovered | client/src/burrow/SelectionActions.tsx:12-16 | for every text, the block as `markdown` returns it, before it is squeezed for copying, is closed by a reader following sections 2.1 and 4.5 of CommonMark 0.31.2 at its own fence, with exactly the text's lines if and only if the text does not end in a carriage return |
| MarkdownCode.PrintedSpanIsRecovered | client/src/burrow/SelectionActions.tsx:17-21 | inside the inline text of one paragraph, a reader following section 6.1 of CommonMark 0.31.2 finds the span's own end, and gets the text back (line endings as spaces) if and only if it is not blank |
| MarkdownSpan.SpanIsRecoveredExactlyWhen | client/src/burrow/SelectionActions.tsx:17-21 | read with its paragraph (sections 4.8 and 6.1), for any rule of which lines begin another block: the printed span comes back if and only if none of its lines is blank or begins a block and none after the first is indented (and its text is not blank, up to one corner the contract spells out) |
| MarkdownSpan.CopiedSpanIsRecoveredExactlyWhen | client/src/burrow/SelectionActions.tsx:17-86 | the same condition, exactly, for the span as it is copied |
| MarkdownCode.SpanEndsItselfExactlyWhen | client/src/burrow/SelectionActions.tsx:17-21 | the span is read as ending where it does if and only if no backtick follows it directly |
| MessageCode.ParseMarkdown | client/src/lib/markdown.ts:408-424 | the loop divides a message into words and code as the one-block-at-a-time reading does |
| MessageCode.LangExactlyWhen | client/src/lib/markdown.ts:400-405 | the first line between fences is a language exactly if it is 1 to 32 letters, digits or the few marks allowed; otherwise it is code |
| MessageCode.ChatTextExactlyWhen | client/src/lib/markdown.ts:177-181 | one space comes off each end of a span exactly if both have one and there is something but white space between |
| MessageCode.MessageBlockExactlyWhen | client/src/lib/markdown.ts:400-424 | the client's own reader gives a printed block back, with the words before it and the rest after it, if and only if the text holds no three backticks in a row: its fences are any three backticks, whatever the printed fence |
| MessageCode.CopiedMessageBlockExactlyWhen | client/src/lib/markdown.ts:400-424 | and a copied block if and only if, besides, the text loses no line feeds |
| MessageCode.FindClose | client/src/lib/markdown.ts:164-176 | the substring search that skips longer runs whole finds the first run of exactly the opening length |
| MessageCode.InlineCode | client/src/lib/markdown.ts:159-185 | the scan at a backtick, with its memory of hopeless run lengths, gives the span that opens there or the run as written, and keeps that memory right |
| MessageCode.DeadStays | client/src/lib/markdown.ts:12-13 | a run length without a partner from some place on has none further on, so the memory of hopeless lengths never hides a span |
| MessageCode.MessageSpanExactlyWhen | client/src/lib/markdown.ts:159-185 | read from its opening backticks a printed span comes back, line breaks and all, if and only if its text is more than white space and no backtick follows directly |
| MessageCode.SpanStaysWordsExactlyWhen | client/src/lib/markdown.ts:408-424 | it is read as a span and not as fences if and only if its text holds no two backticks in a row |
| TextLines.LinesOfJoin | client/src/burrow/ResearchComparison.tsx:6 | splitting joined lines gives the lines back |
| TextLines.RunWithin | client/src/burrow/SelectionActions.tsx:14 | every stretch of one character is within the longest run the fence is sized by |
| TextLines.SpacesAreWhite | client/src/burrow/ResearchComparison.tsx:7 | white space is exactly what `trim` takes for it |
| RevisionDiff.Compare | client/src/burrow/ResearchTask.tsx:48-54 | the two loops hide as many shared lines at both ends as any way of hiding can, and show exactly the rest |
| RevisionDiff.DiffExplains | client/src/burrow/ResearchTask.tsx:48-55 | putting the new lines in the place of the old ones turns one text into the other; no change is reported if and only if the texts are equal |
| TaskList.MergeTasks | client/src/burrow/Burrow.tsx:26-32 | the list returned is the one listing of the merged map, newest first, ids descending within a moment, for any strict order that tells all ids apart |
| TaskList.ShownIsItsBoard | client/src/burrow/Burrow.tsx:26-27 | the next merge starts from exactly what the last one left |
| TaskList.ShowsTheNewest | client/src/burrow/Burrow.tsx:26-32 | after any polls the list shows one task per id that arrived, none older than any that arrived |
| TaskList.ArrivalOrderIsUnobservable | client/src/burrow/Burrow.tsx:26-32 | when the highest version that arrived for each id is one content, any order, grouping and repetition of the same arrivals shows the same list |
| TaskList.OrderIsUnobservableExactlyWhen | client/src/burrow/Burrow.tsx:26-32 | and only then: the order of arrival cannot be seen if and only if the highest version that arrived for each id is one content |
| TaskList.SharedVersionShowsTheLater | client/src/burrow/Burrow.tsx:29 | two contents under one version: the later arrival is shown, so order matters then |
| ReadReceipts.ArrivalOrderIsUnobservable | client/src/App.tsx:1823-1832 | logs of the same events, in any order and with repetitions, leave the same marks, from any marks |
| ReadReceipts.MarksAreFurthest | client/src/App.tsx:1826-1830 | a mark is the furthest of where it began and of every event shown about that member |
| Reactions.ReactionStep | client/src/App.tsx:1771-1802 | one event keeps the groups equal to the regrouped reactions if and only if it adds what was not there, removes what was, or removes from an emoji nobody stands by |
| Reactions.LogRegroups | client/src/App.tsx:1771-1802 | folding a well-formed log equals regrouping what stands after it |
| Reactions.GroupsStandByBirth | client/src/App.tsx:1771-1802 | the groups stand in the order in which they came to be: an emoji's place is that of the last event that found nobody standing by it |
| Reactions.RegroupedGroups | client/src/App.tsx:1771-1802 | there is a group for an emoji exactly when somebody stands by it, with the right count and mark; none is empty |
| Reactions.MessagesAreIndependent | client/src/App.tsx:1773-1776 | each message sees exactly the events about it, in any interleaving |
| Reactions.OvertakenRemovalLeavesAGroup | client/src/App.tsx:1783-1799 | a removal that overtakes the addition it undoes leaves a reaction nobody made |

## Left out

- `perform`, page attachment, request validation, the `status` command and the proxy: foreign calls, or settled by one branch.
- `cancel` as a coroutine: its effect is a task that ends in failure; only its answer is a step of its own, and that
  reads the record without changing it.
- SQLite errors, poisoned locks and I/O failures finer than success or failure of one operation.
- The vault is modelled on values, one thread step at a time, not as a class: what matters is how steps of different
  threads interleave. Only the hex printing and reading loops are methods.
- AES sealing and the keychain's own behaviour: sealing is an injective pairing, the keychain one entry that may fail to answer.
- A changed keychain entry or sealed file (tampering) in `SealedFileOpens`, `CrashLosesNothingSaved`: these are about an
  untampered installation, as is `ResetKeepsTheSavedKeys`; the burn, key-keeping, key-creation and atomic-replace theorems
  start from any disk.
- A `WebSocket` constructor that throws, and message handlers: the frame's content plays no part in reconnecting.
- Real clocks and floating-point rounding: times are natural numbers, jitter is any factor from 0.7 to 1.
- The rule that decides which asset URLs are eligible, and HTML parsing: parameters of the crawl, as is what a fetch yields.
- Rendering: the split of a wide table into visible and details columns is two slices at one index.
- Printed Markdown other than code and tables (emphasis, links, headings, quotes, lists), and what
  client/src/lib/markdown.ts makes of words, line by line: neither the printing nor the reading of it is modelled.
- MarkdownSpan.CopiedSpanIsRecoveredExactlyWhen: reads from the span's opening backticks; an escaped backtick standing
  directly in front of them is not considered. Which lines begin another block is a parameter.
- CopiedMarkdown.CopiedBlockIsRecovered: is about a block printed between empty lines; inside a list item or a table cell
  the enclosing element is printed around it, and that is not modelled.
- MessageCode.MessageSpanExactlyWhen: a span over several lines, one of which begins a heading, quote or list, is divided
  by lines before spans are looked for; that division is not modelled.
- TaskList.MergeTasks: the browser's locale order is any strict order that tells all ids apart; a locale that holds two
  different ids equal is not modelled. Fields the merge does not read are one opaque field.
- ThreadPanel's copy of the reaction fold, read-state events, presence and typing: single-branch updates.
- Signal sessions, the outbox, drafts and disappearing messages: the code that decides is not part of this model.
- Permission bits, plan configuration, tray, preferences: each settled by reading one branch.
