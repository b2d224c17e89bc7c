# Verification of LocalCast's protocols

A Dafny model of the parts of LocalCast whose correctness depends on more than one function: what
survives crashes, cut connections, overlapping calls and unlucky timing, and the codecs both ends must
agree on. `dafny verify dfyconfig.toml` checks all of it.

| module | what it models |
|---|---|
| `Text` | decimal numerals, trimming, splitting as the TypeScript sources use them |
| `HttpRange` | the Range endpoint and the client's readers of its headers |
| `Downloads`, `DownloadManager` | the resumable download queue: state machine and class |
| `DownloadSafety`, `DownloadOutcomes`, `DownloadFolder` | what every run of it keeps, how a transfer leaves its slot and ends, what it leaves alone |
| `Session`, `SessionManager`, `SessionSafety`, `SessionOutcomes` | single-flight token refresh against rotating refresh tokens, and what its callers get |
| `Pairing`, `PairingService` | pairing codes, devices, tokens, tickets, grants: state machine and class |
| `Revocation`, `PairingSafety`, `PairingGrants`, `Lockout` | what holds in every run of it |
| `TokenUse`, `PairingOutcomes` | what is accepted, for how long, and what pairing ends in |
| `RateLimit`, `RateLimiter`, `KeyedLimits` | token buckets, eviction, doubling penalties, one key among many |
| `Sse`, `SseDecoder`, `EventStream` | the event-stream decoder, its class, and the standard's reading |
| `Reconnect`, `OneConnection`, `Resume`, `ChunkedReading` | replay buffer, one connection, any number of connections, read in any chunks |
| `EventBus`, `EventClient`, `BusDelivery` | the classes of both ends, and the handler calls against the stream |
| `Base64`, `Der`, `DerValues`, `Pem` | the certificate writer against a strict reader |
| `Fingerprint` | certificate fingerprints in every spelling |
| `Walk`, `Reconcile`, `Reindex` | the index pass: the walk, the table, both together |
| `Uploads`, `UploadClients`, `UploadRuns`, `UploadProgress` | chunked uploads: the server, both clients, clients against server, and how an upload ends |
| `Processes` | which processes belong to another instance |

## How to read it

Code that changes fields is a class whose methods each cover one stretch between two awaits and state
their whole new state as one step of a pure state machine (`Step` in `Downloads`, `Session`, `Pairing`,
`Uploads`); the theorems are about all runs of that machine. Loops are loops with invariants. Where the
code misses what its comments or names promise, a lemma gives the exact condition under which it keeps
the promise, or the run in which it does not:

- A download destination can be the partial name of another row's, `resume` and a second `cancel` do not
  ask who has a cancelled row's destination now, and the state file can miss a cancel or a new row: each
  is safe exactly under the condition of one of the four `KeepsExactlyWhen` lemmas of `DownloadSafety`.
- The last resort for a download's name is not checked against the disk
  (`DownloadFolder.TakesOverExactlyWhen`).
- A refresh answer lost after the server accepted it, or a lost request it accepts later, signs the
  device out at the next refresh; any other loss is harmless (`SessionSafety.LossIsHarmlessExactlyWhen`,
  `SessionSafety.RotationIsHarmlessExactlyWhenAwaited`, `SessionSafety.DeadTokenSignsOut`).
- A caller that asks after a refresh has failed, but before its error was handed out, shares the error
  instead of starting another (`SessionOutcomes.LateCallerSharesTheError`).
- An approval in flight reopens a device that was closed meanwhile, though never its old tokens
  (`Revocation.StaysClosedExactlyWhenNoApprovalIsPending`).
- Overlapping wrong secrets are counted once, and a stale count can lift a lock
  (`Lockout.StaleFailure`, `Lockout.OverlappingFailuresCountOnce`).
- A network read that ends between CR and LF adds a blank line (`Sse.CutIsHarmlessExactlyWhen`).
- Without a resume point stored events are lost (`Resume.WithoutResumePointEventsAreLost`).
- `integer` of a negative number and `positiveInteger` of no bytes write an INTEGER without content; an
  object identifier whose first arcs overflow one byte and a year outside 1950 to 9999 do not read back
  (`DerValues`).
- Rows the index pass leaves alone keep derived columns that are no longer right
  (`Reconcile.PassEqualsRebuild`).
- A shared folder whose root may not be listed loses every row of the index, although the comment
  promises to keep them (`Reindex.UnlistableRootLosesEveryRow`).
- The phone's upload loop does not end against a server that accepts without counting
  (`UploadClients.OtherwiseItNeedNot`), and the count it is told can go back while an older request is
  open (`UploadRuns.CountGoesBackExactlyWhenNotCalm`).
- An upload whose last request breaks off after its last byte is never published
  (`UploadProgress.LastByteThenSilence`).
- A penalty longer than the limiter keeps an idle row can be cut short by enough other codes
  (`RateLimit.PenaltyCanBeLiftedExactlyWhenItOutlastsTheRow`); the defaults are not that long.
- Other children of our parent count as ours, and parents do not always precede their children, unlike
  the comment in the source (`Processes.OursIsAsDescribedExactlyWhen`,
  `Processes.ParentsFirstExactlyWhenNumberedDownwards`).

## Model

| member | source | states |
|---|---|---|
| `HttpRange.PlainHeader` | apps/server/src/http/range.ts:29-71 | a header `bytes=<digits>-<digits>`, whatever the numerals, is read as exactly those two numerals |
| `HttpRange.OpenEndedHeader` | apps/server/src/http/range.ts:60-63 | `bytes=n-` selects from byte n to the end, and is unsatisfiable from the end on |
| `HttpRange.BoundedHeader` | apps/server/src/http/range.ts:60-70 | `bytes=a-b` selects the bytes from a to b that exist; a reversed or late range, or one whose end no JavaScript number holds, is unsatisfiable |
| `HttpRange.SuffixHeader` | apps/server/src/http/range.ts:52-58 | `bytes=-n` selects the last n bytes, or all of a shorter file; `-0` is unsatisfiable |
| `HttpRange.ServeFile` | apps/server/src/http/range.ts:118-214 | the endpoint's decisions in the order it takes them: refusals, status, Content-Range, Content-Length and exactly the bytes of the selected slice |
| `HttpRange.AdjacentRangesReassemble` | apps/server/src/http/range.ts:149-210 | two requests that meet at a byte bring back the file, in either sharing mode |
| `HttpRange.HeadIsGetWithoutBody` | apps/server/src/http/range.ts:169-204 | a HEAD gets what the GET would with nothing held back, without the body |
| `HttpRange.PlaybackHoldsBackExactlyTheCopies` | apps/server/src/http/range.ts:161-176 | where only playback is shared, a GET is refused exactly when full access would send the whole file or the request is a download; all else is answered alike |
| `HttpRange.StaleValidatorGetsTheWhole` | apps/server/src/http/range.ts:149-158 | a slice of a file that has changed is not sent: the request is answered as one for the whole file |
| `HttpRange.SeveralRangesGetTheWhole` | apps/server/src/http/range.ts:41-46 | so is a list of two or more ranges, however long |
| `HttpRange.OtherUnitsAreIgnored` | apps/server/src/http/range.ts:34-39 | and a header in any other unit |
| `HttpRange.ContentRangeRoundTrip` | apps/desktop-client/src/main/downloads.ts:525-542 | the client reads back both numbers of every Content-Range the server writes |
| `HttpRange.UnsatisfiedRangeRoundTrip` | apps/desktop-client/src/main/downloads.ts:525-542 | the form sent with a 416 yields the size and no starting byte |
| `HttpRange.SizeIsAlwaysKnown` | apps/desktop-client/src/main/downloads.ts:544-552 | from whatever the endpoint sends the client derives the size of the file, so its two fallbacks (no range, no size) never apply to this server |
| `DownloadSafety.EveryRunKeeps` | apps/desktop-client/src/main/downloads.ts:115-485 | every run of starts, answers, cut bodies, pauses, cancels, failures, lost writes of the state file, crashes and restarts keeps: partial files prefixes of their sources, finished files whole, queue, slots and files of live rows disjoint; the four events the code leaves unguarded are admitted exactly where they are harmless |
| `DownloadSafety.FinishedFilesAreWhole` | apps/desktop-client/src/main/downloads.ts:293-422 | after any run of a fresh app a `done` row names a file equal to the source byte for byte, and every row that can be resumed has a true prefix on disk |
| `DownloadSafety.StepKeeps` | apps/desktop-client/src/main/downloads.ts:161-291 | each single event keeps the invariant: queued ids are the queued rows once each, running rows the slots, a waiting row means all slots are busy, no two live rows share a file |
| `Downloads.RespondKeeps` | apps/desktop-client/src/main/downloads.ts:314-376 | the answer to a transfer, right or wrong slice, refusal or error, keeps the invariant |
| `Downloads.EndKeeps` | apps/desktop-client/src/main/downloads.ts:394-410 | the end of a body keeps the invariant, whether it was whole or cut |
| `Downloads.FinishKeeps` | apps/desktop-client/src/main/downloads.ts:412-422 | renaming is sound once the partial file has the size of the source |
| `Downloads.RestartKeeps` | apps/desktop-client/src/main/downloads.ts:115-146 | a restart from whatever the state file holds, with partial files cut anywhere, keeps the invariant if the rows the app had given up or lost are true of the disk |
| `DownloadSafety.AttemptAnswer` | apps/desktop-client/src/main/downloads.ts:300-329 | what the Range endpoint answers a transfer that holds the first n bytes: 200, 206 from n, or 416 with the size |
| `DownloadSafety.AttemptCompletes` | apps/desktop-client/src/main/downloads.ts:300-409 | from any proper prefix on disk one uninterrupted attempt against the Range endpoint ends `done` with the source in place, however the body is cut into reads |
| `DownloadSafety.CompletePartialFileFinishes` | apps/desktop-client/src/main/downloads.ts:314-322 | from a complete partial file the 416 is the end of the transfer |
| `DownloadSafety.UnsizedAnswerIsTakenAtItsWord` | apps/desktop-client/src/main/downloads.ts:369-409 | an answer without any size is finished wherever it stops: the result equals the source exactly when nothing was missing |
| `DownloadSafety.EnqueueKeepsExactlyWhenClaimable` | apps/desktop-client/src/main/downloads.ts:161-183 | from any reachable state a new row is safe exactly when its two files meet no live row's and no foreign bytes lie at its partial path |
| `DownloadSafety.FreeIsClaimableExactlyWhenUnsuffixed` | apps/desktop-client/src/main/downloads.ts:438-441 | for a name `free` accepts that is so exactly when it is not the partial name of a live row's destination, nor such a destination its own partial name |
| `DownloadSafety.ResumeKeepsExactlyWhenClaimable` | apps/desktop-client/src/main/downloads.ts:198-217 | resuming a cancelled row is safe exactly when its destination could be claimed anew |
| `DownloadSafety.CancelKeepsExactlyWhenHarmless` | apps/desktop-client/src/main/downloads.ts:219-231 | cancelling is safe exactly when the row was not cancelled before, or nobody in flight has bytes at its partial path and no finished file is there |
| `DownloadSafety.SecondCancelLosesTheStart` | apps/desktop-client/src/main/downloads.ts:219-231 | the run in which a second cancel lets another row finish with only the rest of its file |
| `DownloadSafety.RestartKeepsExactlyWhenStaleRowsFit` | apps/desktop-client/src/main/downloads.ts:115-146 | a restart is safe exactly when the rows of the state file that the app no longer held are true of the disk; the others need no proviso |
| `DownloadSafety.RestartKeepsWithoutLeftovers` | apps/desktop-client/src/main/downloads.ts:115-146 | in particular when none of those rows is shown as finished or has anything at its partial path |
| `DownloadSafety.StaleRowJoinsTwoFiles` | apps/desktop-client/src/main/downloads.ts:115-217 | otherwise: a row that comes back next to another row's bytes finishes with the start of one file and the rest of the other |
| `DownloadSafety.MissedCancelIsReachable` | apps/desktop-client/src/main/downloads.ts:472-484 | a run, admissible to its last step, that ends there: a cancel that no write of the state file caught before the crash |
| `DownloadSafety.PartSuffixedNameCollides` | apps/desktop-client/src/main/downloads.ts:426-455 | a destination that is the partial name of another row's can be truncated by it: the run that does it |
| `DownloadOutcomes.InterruptedTransfer` | apps/desktop-client/src/main/downloads.ts:261-291 | after any run since a transfer got its slot: if it breaks off n bytes later the row is cancelled and its partial file gone if a cancel came, otherwise the file is the old bytes plus the n, the count is its size, and the row is paused if a pause came or the caller gave up, failed if neither |
| `DownloadOutcomes.EndOfBodyLeaves` | apps/desktop-client/src/main/downloads.ts:394-410 | the end of a body puts the source in place exactly when all of it arrived; a short one leaves what arrived and the row failed, or what the window asked for |
| `DownloadOutcomes.RefusalLeaves` | apps/desktop-client/src/main/downloads.ts:331-337 | an answer that is not the file costs no byte |
| `DownloadOutcomes.WrongAnswerLeaves` | apps/desktop-client/src/main/downloads.ts:314-365 | a slice from elsewhere, or a refused range that does not fit, drops the partial file |
| `DownloadOutcomes.WholeFileReplaces` | apps/desktop-client/src/main/downloads.ts:348-409 | the whole file in answer to a request for the rest replaces what was there |
| `DownloadOutcomes.EveryAttemptCanComplete` | apps/desktop-client/src/main/downloads.ts:300-409 | from every reachable state in which a transfer is about to ask, one uninterrupted attempt puts the source in place |
| `DownloadOutcomes.PausedThenResumedCompletes` | apps/desktop-client/src/main/downloads.ts:185-217 | pause, break, resume and one attempt end with the source in place |
| `DownloadOutcomes.FirstComeFirstServed` | apps/desktop-client/src/main/downloads.ts:243-251 | the free slots go to the waiting rows in the order of the queue, and the rest wait on in that order |
| `DownloadOutcomes.LastInLine` | apps/desktop-client/src/main/downloads.ts:161-217 | a row that asks, anew or again, goes behind all that wait |
| `DownloadOutcomes.FirstFreeName` | apps/desktop-client/src/main/downloads.ts:442-454 | the first candidate that is free, or the last resort when none is |
| `DownloadOutcomes.ProgressIsShown` | apps/desktop-client/src/main/downloads.ts:382-392 | a chunk is on disk when it is counted, and a row that reports shows what is there |
| `DownloadOutcomes.RestartShowsTheTruth` | apps/desktop-client/src/main/downloads.ts:115-146 | after a restart nothing moves, and every resumable row shows the bytes that are there |
| `DownloadFolder.NothingIsOverwritten` | apps/desktop-client/src/main/downloads.ts:443-454 | the promise of the comment, over every run: a file no row named is there unchanged, whatever servers answer and whatever breaks, unless a row had to take the last resort for a name and that was its |
| `DownloadFolder.TakesOverExactlyWhen` | apps/desktop-client/src/main/downloads.ts:426-455 | a new row takes over a file that is there exactly when no candidate is free and the last resort, which is not checked, is its name |
| `DownloadFolder.FinishedExactlyWhenNotShort` | apps/desktop-client/src/main/downloads.ts:394-410 | without trusting the server: a body is taken for the file exactly when it is not shorter than was promised, or nothing was, and the file is then what arrived |
| `DownloadFolder.OneListAtATime` | apps/desktop-client/src/main/downloads.ts:472-484 | whatever happens while the state file is written, it then holds the rows as they were when the write began, or what it held before |
| `DownloadManager.Manager.Load` | apps/desktop-client/src/main/downloads.ts:115-146 | reading the state file back gives the state after a restart |
| `DownloadManager.Manager.SaveBegins` | apps/desktop-client/src/main/downloads.ts:473-478 | the write in turn takes the list as it is then |
| `DownloadManager.Manager.SaveLands` | apps/desktop-client/src/main/downloads.ts:479-479 | the list it took replaces what the state file held |
| `DownloadManager.Manager.Enqueue` | apps/desktop-client/src/main/downloads.ts:161-183 | the new row, its destination and the pump, as one step |
| `DownloadManager.Manager.Pause` | apps/desktop-client/src/main/downloads.ts:185-196 | a running row is flagged, a queued one leaves the queue, others stay |
| `DownloadManager.Manager.Resume` | apps/desktop-client/src/main/downloads.ts:198-217 | re-queues exactly the rows that may be resumed, with the count on disk |
| `DownloadManager.Manager.Cancel` | apps/desktop-client/src/main/downloads.ts:219-231 | removes the partial file and the queue entry, or flags the running row |
| `DownloadManager.Manager.Pump` | apps/desktop-client/src/main/downloads.ts:243-251 | the loop starts queued rows until the slots are full |
| `DownloadManager.Manager.OnResponse` | apps/desktop-client/src/main/downloads.ts:314-376 | everything between the answer and the first read |
| `DownloadManager.Manager.OnChunk` | apps/desktop-client/src/main/downloads.ts:382-392 | a chunk appended to the partial file |
| `DownloadManager.Manager.OnEnd` | apps/desktop-client/src/main/downloads.ts:394-410 | truncation check and rename |
| `DownloadManager.Manager.OnError` | apps/desktop-client/src/main/downloads.ts:261-291 | the same as one step of the state machine, whose outcome for file, count and status `DownloadOutcomes.InterruptedTransfer` states over runs |
| `DownloadManager.Manager.DestinationFor` | apps/desktop-client/src/main/downloads.ts:426-455 | the first free candidate, claimed by no live row and absent from disk with and without the suffix |
| `SessionSafety.EveryRunKeeps` | packages/client-core/src/session.ts:74-216 | every interleaving of callers, store, network and server, with answers lost and the client started again wherever that is harmless, keeps the invariant of one refresh in flight |
| `SessionSafety.SingleFlight` | packages/client-core/src/session.ts:127-216 | at most one refresh outstanding and one abandoned request for each loss; the awaited one has the server's live token; a device nobody closed is never signed out |
| `SessionSafety.AgreementBetweenRefreshes` | packages/client-core/src/session.ts:172-216 | with no refresh in flight, store, memory and server hold the same refresh token |
| `SessionSafety.RetryCarriesAnotherToken` | packages/client-core/src/api.ts:437-453 | a caller that reported a stale token gets another one or an error, never the same again |
| `SessionSafety.ServerKeeps` | apps/server/src/auth/tokens.ts:201-228 | the gap between checking the old hash and storing the new one lets nobody else in |
| `SessionSafety.CheckPassesExactlyWhenOpen` | apps/server/src/auth/tokens.ts:209-225 | in a reachable state a refresh passes the check exactly when the device is open and the token has not expired |
| `SessionSafety.DeadTokenSignsOut` | packages/client-core/src/session.ts:192-200 | a client left with a dead refresh token is signed out by its next refresh |
| `SessionSafety.LossIsHarmlessExactlyWhen` | packages/client-core/src/session.ts:180-216 | in any reachable state of an open device a lost answer or a relaunch leaves it the server's token exactly when the server had not accepted the request or the client had stored the result |
| `SessionSafety.RotationIsHarmlessExactlyWhenAwaited` | apps/server/src/auth/tokens.ts:183-228 | carrying out a request keeps the device's token live exactly when the device still waits for it |
| `SessionSafety.LiveExactlyWhileNotAccepted` | apps/server/src/auth/tokens.ts:201-228 | after a loss, whatever the server still does with the request, the device's token is live exactly while it has not been accepted |
| `SessionOutcomes.WaitersGetWhatWasIssued` | packages/client-core/src/session.ts:172-178 | when the gate opens on a refresh that went through, every waiter is handed one session, with the tokens and the expiry of the last rotation; while nobody closed the device its refresh token is the live one, and store and memory hold it |
| `SessionOutcomes.EveryCallSucceeds` | packages/client-core/src/session.ts:127-216 | in a run that loses nothing, of a device nobody closed, every call that has ended returned a session |
| `SessionOutcomes.ErrorsHaveACause` | packages/client-core/src/session.ts:172-216 | a call ends in an error only if a request or answer was lost or refused since it was made, or such a failure was still to be handed out then |
| `SessionOutcomes.LateCallerSharesTheError` | packages/client-core/src/session.ts:172-178 | that last case is real: a caller that joins a refresh which has failed already gets its error |
| `SessionOutcomes.UndisturbedRefresh` | packages/client-core/src/session.ts:127-216 | one call on an idle device whose token runs out ends with the new session, its new expiry included, returned, stored, held and live |
| `SessionOutcomes.ClosedThenRefused` | apps/server/src/auth/tokens.ts:201-225 | a closed device is refused as unauthenticated, and as revoked if a request that had passed the check was carried out after the closing |
| `SessionManager.Manager.Begin` | packages/client-core/src/session.ts:127-146 | `ensureFresh` and `refreshAfter` up to the awaited load |
| `SessionManager.Manager.OnStoreRead` | packages/client-core/src/session.ts:74-88 | one store read settles every waiting caller |
| `SessionManager.Manager.Continue` | packages/client-core/src/session.ts:128-131 | after the load: return, or join or open the single-flight gate |
| `SessionManager.Manager.OnAnswer` | packages/client-core/src/session.ts:180-208 | a refusal signs out, a success is on its way to the store |
| `SessionManager.Manager.OnWriteLanded` | packages/client-core/src/session.ts:211-213 | once the store has the session, losing the client loses no token |
| `SessionManager.Manager.OnWritten` | packages/client-core/src/session.ts:213-215 | memory, store and an open server hold the same token |
| `SessionManager.Manager.OnSettled` | packages/client-core/src/session.ts:172-178 | every waiter gets the outcome and the gate opens, as one step; `SessionOutcomes.WaitersGetWhatWasIssued` says over runs which session that is |
| `Revocation.RevocationIsFinal` | apps/server/src/auth/tokens.ts:138-177 | after a device is closed no access token handed out before, or being signed across it, is ever accepted again in any later state |
| `Revocation.RevocationKillsTickets` | apps/server/src/auth/tokens.ts:90-130 | the same for every playback URL carrying a signature handed out before |
| `Revocation.SpentRefreshTokensStaySpent` | apps/server/src/auth/tokens.ts:183-240 | a refresh token ended by a rotation or a closing is never redeemed again by any device |
| `Revocation.StaysClosedExactlyWhenNoApprovalIsPending` | apps/server/src/auth/pairing.ts:331-347 | a closed device can become active again exactly when an approval of it is still in flight |
| `Revocation.RefreshFailsWhileClosed` | apps/server/src/auth/tokens.ts:209-216 | while it stays closed no refresh token of the device is redeemed and nothing changes |
| `Revocation.StepGoesForward` | apps/server/src/auth/tokens.ts:231-240 | no identifier is reused and no surviving row lowers its token version |
| `Revocation.StepIssuesOnlyCurrent` | apps/server/src/auth/tokens.ts:51-97 | what is put into circulation carries the version its device has at that moment |
| `TokenUse.TicketAcceptedExactlyWhen` | apps/server/src/auth/tokens.ts:90-130 | over all runs: a URL with a signature handed out earlier is accepted exactly for the file, device and expiry it was signed for, before that expiry, while the device is active at the version of that time |
| `TokenUse.PlayedUntilExpiry` | apps/server/src/auth/tokens.ts:90-130 | a URL made for an active device plays that file and nothing else until it expires, whatever happens short of closing the device |
| `TokenUse.AcceptedUntilExpiry` | apps/server/src/auth/tokens.ts:138-177 | the access token a poll or refresh signs is accepted exactly until the time it was signed for, whatever happens short of closing the device |
| `PairingSafety.AtMostOneDevicePerCode` | apps/server/src/auth/pairing.ts:245-269 | however claims on a code interleave at their awaits, it pairs at most one device |
| `PairingSafety.EveryRunKeepsOneDevice` | apps/server/src/auth/pairing.ts:123-275 | each device has its own code, each consumed code its device, with the permissions it was minted with |
| `PairingSafety.PasswordsAreHandedOutOnce` | apps/server/src/auth/pairing.ts:301-364 | each approval's WebDAV password is returned by at most one poll |
| `PairingSafety.StepMoves` | apps/server/src/auth/pairing.ts:310-364 | every step only moves passwords between call, stash and reply, never copies one |
| `PairingSafety.CollectedPasswordOpensTheDrive` | apps/server/src/auth/pairing.ts:343-360 | the password a poll takes away is the one whose hash is on the row |
| `PairingOutcomes.ClaimPairsExactlyWhen` | apps/server/src/auth/pairing.ts:195-275 | an uninterrupted claim pairs a device exactly when the code is open and the secret its own; a wrong secret is counted, the fifth answered as locked |
| `PairingOutcomes.CodeAlonePairsExactlyWhen` | apps/server/src/auth/pairing.ts:195-220 | a claim by the code alone pairs exactly when the code is open |
| `PairingOutcomes.CollectedExactlyWithinTheHour` | apps/server/src/auth/pairing.ts:301-321 | whatever happens in between short of closing, restart or another approval, the first poll collects the password of the approval exactly within the hour |
| `PairingOutcomes.RedeemedExactlyUntilExpiry` | apps/server/src/auth/tokens.ts:201-228 | a refresh token handed out is redeemed exactly until it expires, and no other is, until the next session or a closing |
| `PairingOutcomes.PairsFromEndToEnd` | apps/server/src/auth/pairing.ts:123-364 | mint, claim, approval, hash and poll end in a reply whose tokens are accepted until they expire and whose password is the one on the row |
| `PairingOutcomes.SetsExactlyWhatIsNamed` | apps/server/src/http/routes/operator.ts:446-458 | setting permissions changes exactly the folders named, each to its last mode, and nothing when device or folder is unknown |
| `PairingGrants.UpsertedAt` | apps/server/src/auth/pairing.ts:348-356 | the upserts change exactly the named entries for folders that exist, each to its last mode |
| `PairingGrants.ApprovalGrantsTheSnapshot` | apps/server/src/auth/pairing.ts:341-358 | approving writes exactly the mint-time snapshot, restricted to the folders that still exist |
| `PairingGrants.NoGrantBeyondTheCode` | apps/server/src/auth/pairing.ts:428-439 | in every reachable state a grant names an existing device and folder and, unless the operator set it, comes from the device's code |
| `Lockout.FiveGuesses` | apps/server/src/auth/pairing.ts:220-282 | with claims on a code one after another nobody checks more than five wrong secrets, and then every claim is refused as locked |
| `Lockout.StaleFailure` | apps/server/src/auth/pairing.ts:221-231 | a failed check counts exactly when the count it read is still the count, and keeps a lock exactly when the count it read plus one reaches five |
| `Lockout.OverlappingFailuresCountOnce` | apps/server/src/auth/pairing.ts:221-223 | two failures that overlap are counted as one, from any count: the run that shows it |
| `PairingService.Service.Mint` | apps/server/src/auth/pairing.ts:123-158 | clearing spent codes, then the first of twenty draws that is free |
| `PairingService.Service.Claim` | apps/server/src/auth/pairing.ts:195-232 | the refusals in order, up to the scrypt check or through to the device |
| `PairingService.Service.Consume` | apps/server/src/auth/pairing.ts:247-269 | the guarded update and the new device in one transaction |
| `PairingService.Service.ClaimAfterCheck` | apps/server/src/auth/pairing.ts:221-275 | after the check: the failure counted from the count read before, or the code consumed |
| `PairingService.Service.RegisterFailure` | apps/server/src/auth/pairing.ts:277-282 | count and lock as written, on the row if it still exists |
| `PairingService.Service.Poll` | apps/server/src/auth/pairing.ts:301-321 | every answer of a poll, taking the password out of the stash |
| `PairingService.Service.Redeem` | apps/server/src/auth/tokens.ts:201-227 | every refusal of a refresh in order |
| `PairingService.Service.IssueRefreshToken` | apps/server/src/auth/tokens.ts:183-195 | the new token goes onto whatever row is there now |
| `PairingService.Service.Approve` | apps/server/src/auth/pairing.ts:331-340 | up to the hash |
| `PairingService.Service.ApproveAfterHash` | apps/server/src/auth/pairing.ts:341-360 | status, hash, grants and stash, unconditionally |
| `PairingService.Service.DefaultPermissionsFor` | apps/server/src/auth/pairing.ts:428-439 | the permissions of the one code the device consumed |
| `PairingService.Service.Upsert` | apps/server/src/auth/pairing.ts:348-356 | the loop over the snapshot |
| `PairingService.Service.Revoke` | apps/server/src/auth/tokens.ts:231-240 | status, version and refresh token together |
| `PairingService.Service.Reject` | apps/server/src/auth/pairing.ts:376-383 | revoked and its stash dropped |
| `PairingService.Service.PruneAbandoned` | apps/server/src/auth/pairing.ts:394-408 | unanswered and never-approved rows go, with what the schema cascades, and are counted |
| `RateLimit.WaitIsLeast` | apps/server/src/auth/rateLimit.ts:80-91 | the wait told to a denied caller is the least whole number of milliseconds after which a call is granted |
| `RateLimit.DeniedCallLeavesNoTrace` | apps/server/src/auth/rateLimit.ts:80-91 | a denied call changes no later answer |
| `RateLimit.GrantsAreBounded` | apps/server/src/auth/rateLimit.ts:80-91 | in any stretch of time a bucket grants at most its capacity plus what drips in meanwhile |
| `RateLimit.EvictionIsInvisible` | apps/server/src/auth/rateLimit.ts:102-117 | dropping idle peers answers every sequence of calls as a map that never forgets |
| `RateLimit.MirroredAnswers` | apps/server/src/auth/rateLimit.ts:159-165 | the same from any two maps that agree up to full buckets |
| `RateLimit.PenaltyIsServed` | apps/server/src/auth/rateLimit.ts:119-165 | where a row is kept at least as long as the penalty, no sequence of attempts and failures against any codes lets an attempt inside it through early |
| `RateLimit.PenaltyCanBeLiftedExactlyWhenItOutlastsTheRow` | apps/server/src/auth/rateLimit.ts:119-165 | some sequence of attempts lets one inside the penalty through exactly when the penalty is longer, by more than a millisecond, than an idle row is kept |
| `RateLimit.NextPenaltyStartsOver` | apps/server/src/auth/rateLimit.ts:141-165 | the next failure counts on from the last exactly when the row was not forgotten, and from one when it was |
| `KeyedLimits.CodeAnswersAreItsBuckets` | apps/server/src/auth/rateLimit.ts:119-138 | after any beginning, once a code's penalty is over and until it fails again, the attempts at it are told what its own bucket tells them; other codes and evictions change no answer |
| `KeyedLimits.CodeAttemptsAreBounded` | apps/server/src/auth/rateLimit.ts:119-138 | so no more of them get through than its capacity and what drips in from the first to the last |
| `KeyedLimits.PeerAnswersAreItsBuckets` | apps/server/src/auth/rateLimit.ts:102-117 | a named peer is told what its own bucket tells it, whoever else calls and whatever is evicted |
| `KeyedLimits.BlocksDouble` | apps/server/src/auth/rateLimit.ts:141-152 | the first failure blocks for the base, each further one for twice the last up to the ceiling |
| `KeyedLimits.MemoryIsBounded` | apps/server/src/auth/rateLimit.ts:159-165 | a map of more than 512 rows holds only those used within the time that matters |
| `RateLimiter.Limiter.TakeOne` | apps/server/src/auth/rateLimit.ts:80-91 | refill, compare and spend, as one bucket step |
| `RateLimiter.Limiter.CheckGlobal` | apps/server/src/auth/rateLimit.ts:97-100 | granted exactly when a whole token is there, which is then spent; a refusal spends nothing and names the first millisecond that succeeds |
| `RateLimiter.Limiter.CheckPeer` | apps/server/src/auth/rateLimit.ts:102-117 | anonymous or own bucket, after eviction |
| `RateLimiter.Limiter.EvictIdlePeers` | apps/server/src/auth/rateLimit.ts:159-165 | the loop drops exactly the idle buckets of a large map |
| `RateLimiter.Limiter.EvictIdleCodeRows` | apps/server/src/auth/rateLimit.ts:159-165 | the same over the codes |
| `RateLimiter.Limiter.CheckCode` | apps/server/src/auth/rateLimit.ts:119-138 | block first, then the bucket, as one step; `KeyedLimits.CodeAnswersAreItsBuckets` states over runs what is told |
| `RateLimiter.Limiter.PenaliseCode` | apps/server/src/auth/rateLimit.ts:141-152 | one more failure, the block and the time stamp |
| `Sse.ChunkingIsInvisible` | packages/client-core/src/sse.ts:44-58 | for every text and every chunking that never separates CR from LF, the frames and the final state are those of one push |
| `Sse.CleanCut` | packages/client-core/src/sse.ts:44-58 | one cut, anywhere else, is invisible |
| `Sse.CutIsHarmlessExactlyWhen` | packages/client-core/src/sse.ts:49-56 | a cut is harmless for all continuations exactly when the text does not end in CR, or nothing is pending |
| `Sse.StrayBlankLine` | packages/client-core/src/sse.ts:25-56 | what a cut between CR and LF does: one blank line too many |
| `SseDecoder.Decoder.Push` | packages/client-core/src/sse.ts:44-58 | the loop over the buffer |
| `SseDecoder.Decoder.Line` | packages/client-core/src/sse.ts:67-113 | one line into the fields, and the dispatch at a blank one |
| `EventStream.DecoderFollowsTheStandard` | packages/client-core/src/sse.ts:67-113 | the decoder delivers the events, ids and data that section 9.2.6 of the WHATWG HTML Living Standard reads from the same text |
| `EventStream.TypesAgreeExactlyWhenNoneIsEmpty` | packages/client-core/src/sse.ts:67-113 | and the same types exactly when no event ends its `event` fields with an empty one, which the decoder keeps and the standard reads as `message` |
| `EventStream.DataLinesAreItsLines` | packages/client-core/src/sse.ts:99-113 | the values of the `data` lines of an event are the lines of its data |
| `EventStream.MessageDecodes` | apps/server/src/http/routes/events.ts:52-55 | one written message is one frame, at its last character and not before |
| `EventStream.CutStreamDecodes` | packages/client-core/src/sse.ts:44-65 | wherever the stream is cut, exactly the messages that arrived whole come out, in order |
| `EventStream.EncodeThenDecode` | apps/server/src/http/routes/events.ts:52-55 | what the server writes decodes to what it wrote |
| `OneConnection.PublishKeeps` | apps/server/src/events/bus.ts:43-51 | the buffer stays the tail of everything stored |
| `OneConnection.BufferCovers` | apps/server/src/events/bus.ts:110-112 | if no more was stored since an id than the buffer holds, replay gives the whole visible history after it |
| `OneConnection.OpenIsFaithful` | apps/server/src/http/routes/events.ts:57-73 | replay then subscribe leaves nothing visible unsent |
| `OneConnection.HappeningsKeep` | apps/server/src/http/routes/events.ts:69-81 | events, invisible events and heartbeats keep the stream in step with the history |
| `OneConnection.CutDelivers` | packages/client-core/src/events.ts:57-75 | of a stream cut at any character the frames are those of some number of whole items |
| `OneConnection.AttemptDelivers` | packages/client-core/src/events.ts:206-251 | after one attempt cut anywhere the client has exactly the visible history up to its resume point |
| `Resume.NothingLostNothingTwice` | packages/client-core/src/events.ts:190-248 | over any number of connections, each cut anywhere, the app was handed the visible history up to its resume point: nothing lost, twice or out of order |
| `ChunkedReading.ReadingIsInvisible` | packages/client-core/src/sse.ts:44-58 | what the server writes can be read in any chunks: it holds no carriage return |
| `ChunkedReading.NothingLostInAnyChunks` | packages/client-core/src/events.ts:190-248 | the same over any number of connections, each cut anywhere and read in any chunks |
| `Resume.FirstConnection` | apps/server/src/http/routes/events.ts:57-73 | a client without an id is in sync from the id current when it connected, once a frame has reached it |
| `Resume.WithoutResumePointEventsAreLost` | apps/server/src/http/routes/events.ts:57-68 | without a resume point an uncut connection is complete exactly when nothing visible was stored meanwhile |
| `EventBus.EachIsCalledOnce` | apps/server/src/events/bus.ts:53-60 | each subscriber that may see an event is called once, every other not at all |
| `EventBus.DeliveriesAreTheCalls` | apps/server/src/events/bus.ts:53-60 | the calls of one publication carry its number and event and go to exactly the subscribers that may see it, in the order they subscribed |
| `BusDelivery.HandlerWritesWhatHappens` | apps/server/src/http/routes/events.ts:70-73 | what a connection writes when its handler is called is the item of the stream model, under the same number |
| `BusDelivery.ReplayFromADelivery` | apps/server/src/events/bus.ts:110-112 | replay from the number a handler was called with yields exactly what was published after that call and the device may see |
| `EventBus.InMemoryEventBus.Publish` | apps/server/src/events/bus.ts:43-68 | the new id and buffer, and the handler calls: each carries the number the event is stored under and the event, to exactly those who may see it, in order |
| `EventBus.InMemoryEventBus.Replay` | apps/server/src/events/bus.ts:110-112 | the filtered buffer, in order |
| `EventBus.InMemoryEventBus.SubscribeWithId` | apps/server/src/events/bus.ts:98-107 | a fresh subscriber at the end |
| `EventClient.EventClient.Consume` | packages/client-core/src/events.ts:250-251 | the id is noted whatever the frame turns out to be |
| `EventClient.EventClient.ConsumeAll` | packages/client-core/src/events.ts:206-221 | the frames of one connection |
| `Der.ElementReads` | apps/server/src/net/der.ts:33-40 | what was written is read back whatever follows it |
| `Der.ElementWrites` | apps/server/src/net/der.ts:33-40 | a strict reader accepts only what the writer would write |
| `Der.PrefixFree` | apps/server/src/net/der.ts:33-40 | no encoding is a prefix of another |
| `Der.LengthIsMinimal` | apps/server/src/net/der.ts:34-39 | the length form is the shortest of all definite forms and the only one of its size (sections 8.1.3 and 10.1 of ITU-T X.690) |
| `Der.TreesReadBack` | apps/server/src/net/der.ts:42-56 | nested values decode to exactly the tree that was written |
| `Der.OnlyWrittenIsRead` | apps/server/src/net/der.ts:42-56 | and every accepted byte string is the writer's own for its tree |
| `Der.EncodingIsUnique` | apps/server/src/net/der.ts:42-56 | different trees have different encodings |
| `Der.HelpersBuildTrees` | apps/server/src/net/der.ts:42-56 | `sequence`, `set` and `explicit` over encoded parts read back as the tree with those parts |
| `Der.OctetsOf` | apps/server/src/net/der.ts:37-38 | the loop over base-256 digits |
| `Der.WriteTlv` | apps/server/src/net/der.ts:33-40 | short or long form, as one buffer |
| `DerValues.IntegerRoundTrips` | apps/server/src/net/der.ts:67-74 | an integer keeps its value exactly when it is not negative |
| `DerValues.IntegerIsMinimal` | apps/server/src/net/der.ts:67-74 | the content is the only one a strict reader takes for the value (section 8.3) |
| `DerValues.PositiveIntegerRoundTrips` | apps/server/src/net/der.ts:77-83 | raw bytes keep their magnitude exactly when there are any |
| `DerValues.OidRoundTrips` | apps/server/src/net/der.ts:102-119 | an object identifier reads back exactly when its first two arcs fit their byte (section 8.19) |
| `DerValues.TimeRoundTrips` | apps/server/src/net/der.ts:127-140 | a date reads back exactly when its year is between 1950 and 9999 (section 4.1.2.5 of RFC 5280) |
| `DerValues.WriteInteger` | apps/server/src/net/der.ts:67-74 | the written INTEGER |
| `DerValues.WritePositiveInteger` | apps/server/src/net/der.ts:77-83 | the loop over leading zeros |
| `DerValues.WriteArc` | apps/server/src/net/der.ts:108-117 | the two loops over one arc |
| `DerValues.WriteOid` | apps/server/src/net/der.ts:102-119 | the loop over the arcs, and the refusals |
| `Pem.PemRoundTrips` | apps/server/src/net/der.ts:143-151 | what was written as PEM reads back byte for byte |
| `Pem.LineLengths` | apps/server/src/net/der.ts:145-149 | no line is blank or over 64 characters and all but the last have 64 |
| `Pem.LinesOf` | apps/server/src/net/der.ts:148-149 | the chunking loop |
| `Base64.EncodeThenDecode` | packages/client-core/src/certificates.ts:58-75 | base64 of any bytes decodes to them although the 32-bit register overflows |
| `Base64.LettersDecode` | packages/client-core/src/certificates.ts:62-73 | from any leftover register contents |
| `Base64.BytesOf` | packages/client-core/src/certificates.ts:58-75 | the loop with its wrapping register |
| `Fingerprint.SpellingsAgree` | packages/client-core/src/certificates.ts:82-101 | every spelling of 32 bytes normalises to the one canonical form, base64 exactly when it neither contains the word nor, bare, starts like a prefix |
| `Fingerprint.NormaliseIsCanonical` | packages/client-core/src/certificates.ts:34-51 | whatever is accepted is 32 upper-case pairs joined by colons |
| `Fingerprint.NormaliseIsIdempotent` | packages/client-core/src/certificates.ts:82-101 | normalising twice is normalising once |
| `Fingerprint.MatchIsEquality` | packages/client-core/src/certificates.ts:111-119 | two spellings match exactly when both are readable and the bytes are the same |
| `Fingerprint.FingerprintsMatch` | packages/client-core/src/certificates.ts:111-119 | the loop that never leaves early decides equality of the normal forms |
| `Walk.ListedExactlyWhenReachable` | apps/server/src/library/indexer.ts:192-253 | an entry is listed exactly when names lead to it within the depth, none of them skipped, past readable directories only |
| `Walk.EachPathOnce` | apps/server/src/library/indexer.ts:192-253 | in a tree with proper names each path is listed once |
| `Walk.ParentsAreListed` | apps/server/src/library/indexer.ts:220-232 | every nested entry is listed together with its parent directory |
| `Walk.HousekeepingIsNeverListed` | apps/server/src/library/indexer.ts:26-42 | the system folders, repository folders, lock files and thumbnail caches are never listed in any spelling, nor anything below them |
| `Walk.JoinInjective` | apps/server/src/library/indexer.ts:217-217 | different name lists are different paths |
| `Walk.OnceEachInAnyOrder` | apps/server/src/library/indexer.ts:192-253 | whatever order the walk lists them in, each path comes once |
| `Walk.WalkTree` | apps/server/src/library/indexer.ts:192-253 | the stack-driven loop ends, lists exactly the rows of the tree, each as often, and fails exactly when a directory it reads is broken |
| `Walk.WalkEntries` | apps/server/src/library/indexer.ts:209-249 | the loop over one directory |
| `Walk.Visit` | apps/server/src/library/indexer.ts:209-248 | one entry: its row, and the directory left for later |
| `Reconcile.PassEqualsRebuild` | apps/server/src/library/indexer.ts:271-393 | whatever rows were there, the pass leaves what a rebuild would exactly when the rows it leaves alone are still true |
| `Reconcile.PassHoldsTheWalk` | apps/server/src/library/indexer.ts:301-375 | afterwards the folder holds exactly the walked paths, unchanged rows untouched, and |old| - removed + inserted = |walked| |
| `Reconcile.SecondPassWritesNothing` | apps/server/src/library/indexer.ts:312-319 | a second pass over the same walk writes and removes no row |
| `Reconcile.CountsAreOfTheWalk` | apps/server/src/library/indexer.ts:303-306 | the counts shown are those of the walk |
| `Reconcile.EveryEntryIsCounted` | apps/server/src/library/indexer.ts:301-363 | every entry of the walk is counted once, as inserted, updated or left alone |
| `Reconcile.WrittenAsFound` | apps/server/src/library/indexer.ts:301-363 | what a pass writes carries what the walk found and the time of the pass; a row left alone keeps its own |
| `Reconcile.ReconcileInBatches` | apps/server/src/library/indexer.ts:365-369 | batches of any size come to the same |
| `Reconcile.ApplyBatch` | apps/server/src/library/indexer.ts:301-363 | the loop over one batch |
| `Reindex.PassOverTheTree` | apps/server/src/library/indexer.ts:192-393 | however the walk orders the tree, the table then holds exactly the paths that names lead to, and is the one rebuilt from the tree exactly when the rows left alone are still true |
| `Reindex.IndexFolder` | apps/server/src/library/indexer.ts:126-161 | stat, walk and batches together: a folder that cannot be read keeps its rows |
| `Reindex.UnlistableRootLosesEveryRow` | apps/server/src/library/indexer.ts:129-142 | a root that is there but may not be listed is passed over like any directory: every row goes, against the comment |
| `Uploads.EveryRunKeepsThePrefix` | apps/server/src/modules/uploads/sessions.ts:144-213 | however requests of honest clients overlap, break off and repeat, the counted bytes are a prefix of the source and a published file is the source |
| `Uploads.TheFileNeverShrinks` | apps/server/src/modules/uploads/sessions.ts:193-198 | a count that goes down loses no byte on disk |
| `UploadClients.Send` | apps/desktop-client/src/main/uploads.ts:151-213 | the desktop loop ends against any server, sends only the source's bytes at strictly growing offsets, and succeeds exactly as the last answer says |
| `UploadClients.UploadFile` | apps/pwa/src/uploads/uploader.ts:98-125 | the phone's loop ends, lexicographically, when each turn it comes to moves on, and returns only when there is nothing left to send |
| `UploadClients.ItEnds` | apps/pwa/src/uploads/uploader.ts:98-125 | the same as a property of runs |
| `UploadClients.OtherwiseItNeedNot` | apps/pwa/src/uploads/uploader.ts:107-110 | against a server that accepts without counting it goes on for any number of turns |
| `UploadRuns.UploadedFilesAreWhole` | apps/pwa/src/uploads/uploader.ts:98-127 | client and server together, requests overlapping and breaking off: the file is a prefix of the source that covers all the client was told, and a loop that returns leaves the source, published when it says complete |
| `UploadRuns.TurnKeeps` | apps/server/src/modules/uploads/sessions.ts:144-213 | a success the client hears of is past its chunk and true of the file |
| `UploadRuns.CountGoesBackExactlyWhenNotCalm` | apps/server/src/modules/uploads/sessions.ts:193-198 | the server can come to count less than the client knows exactly when it does, or an older request is still open further back |
| `UploadRuns.CalmPlayMovesOn` | apps/pwa/src/uploads/uploader.ts:98-125 | where that is not so, every turn against this server moves on, which the end of the loop rests on |
| `UploadRuns.UploadToServer` | apps/pwa/src/uploads/uploader.ts:83-127 | the phone's client against this server, where no turn begins with an older request open further back: it ends, and what it returns is true of the file |
| `UploadRuns.SendToServer` | apps/desktop-client/src/main/uploads.ts:157-213 | the desktop client against this server: its guard never fires, and done means published and equal to the source |
| `UploadProgress.RecoveringUploadEnds` | apps/pwa/src/uploads/uploader.ts:83-127 | over a network that recovers, an upload ends with all of the file at the server, published exactly when its last request was not broken off after its last byte |
| `UploadProgress.RecoveringUploadIsPublished` | apps/pwa/src/uploads/uploader.ts:83-127 | so it is published if no request breaks off after its last byte |
| `UploadProgress.LastByteThenSilence` | apps/server/src/modules/uploads/sessions.ts:193-213 | otherwise it never is: the loop is over before the first request whenever the upload is taken up again |
| `UploadProgress.StaleOffsetIsCorrected` | apps/pwa/src/uploads/uploader.ts:98-125 | a client that does not know how far the server is learns it in one turn and goes on from there |
| `Processes.Ours` | apps/desktop/src/main/processes.ts:74-85 | the passes end with a set that holds both roots, is closed under child-of and contains only descendants |
| `Processes.OursIsLeast` | apps/desktop/src/main/processes.ts:74-85 | that set is the least such set |
| `Processes.ForeignInstances` | apps/desktop/src/main/processes.ts:70-95 | exactly the listed processes outside it, roots of their tree first |
| `Processes.OursIsAsDescribedExactlyWhen` | apps/desktop/src/main/processes.ts:64-85 | the set is this process, its parent and our descendants exactly when the parent has no other child than itself or one of those |
| `Processes.ParentsFirstExactlyWhenNumberedDownwards` | apps/desktop/src/main/processes.ts:64-94 | each parent comes before its children exactly when below the roots every parent has a smaller number than its children |
| `Processes.SortedIsOrdered` | apps/desktop/src/main/processes.ts:90-94 | the sort keeps every process and orders by the comparison |

## Left out

Contracts stated weaker than the source might suggest:

- DownloadSafety.EveryRunKeeps: assumes job ids that do not repeat, that nobody else writes into the download folder, that a crash loses at most the ends of partial files, and a source that does not change between attempts, because the code can notice none of this (the client sends no If-Range); the four events it leaves unguarded are admitted exactly where their own lemmas say they are harmless.
- DownloadSafety.FinishedFilesAreWhole: assumes answers that say nothing untrue about the file (any status, any slice, any cut); an answer without a size has its own lemma.
- DownloadOutcomes.PausedThenResumedCompletes: takes an empty queue, because a resumed row otherwise waits its turn behind the others; from when it has it, `DownloadOutcomes.EveryAttemptCanComplete` needs no such proviso.
- DownloadFolder.NothingIsOverwritten: speaks of files that no row and no recorded row names, because a row's own file is its to replace.
- Downloads.RestartKeeps: goes one way only, because `DownloadSafety.RestartKeepsExactlyWhenStaleRowsFit` states the equivalence.
- SessionSafety.SingleFlight: does not cover losses that are not harmless (their exact condition has its own lemmas), a store write that fails, an expired refresh token, or `signOut`, `adopt` and `updateAlternates` overlapping a refresh, because each of them breaks the property.
- SessionOutcomes.ErrorsHaveACause: counts a failure that was pending when the call was made as its cause, because the code shares the failed promise until it is settled.
- SessionSafety.RetryCarriesAnotherToken: models of `#authed` only the retry behind the refresh, because the rest of it builds requests.
- Lockout.FiveGuesses: holds for claims that do not overlap on one code, because the code reads the count before an await and writes it after.
- RateLimit.GrantsAreBounded: does not model floating-point rounding or a clock that moves backwards, because it computes with reals over a monotone clock.
- KeyedLimits.CodeAnswersAreItsBuckets: takes times from the epoch on, because the block of a new row ends at 0.
- RateLimit.PenaltyCanBeLiftedExactlyWhenItOutlastsTheRow: takes times from the epoch on and a non-negative `idleEvictMs`, because the block of a new row ends at 0.
- EventStream.DecoderFollowsTheStandard: states ids and data, types in a lemma of their own, and does not model the `retry:` field or a leading byte order mark, because `Number()` accepts more than digits and the text decoder removes the mark.
- Resume.NothingLostNothingTwice: assumes that each reconnect comes before more was stored than the buffer holds, ids up to 2^53 - 1, fixed visibility, and replay and subscribe as one step, because nothing is promised beyond them.
- Walk.WalkTree: does not model a tree that changes during the walk or upper-casing beyond ASCII, because the listing would have no single meaning.
- Reconcile.ReconcileInBatches: requires a positive batch size and no other writer of the folder's rows between batches, because a size of zero would never advance.
- Uploads.EveryRunKeepsThePrefix: assumes clients that send the source's own bytes from the offset they claim, and takes the rename and the row update that follows it as one step, because the server cannot know the source.
- UploadClients.UploadFile: assumes of the turns the loop comes to that a success is counted and a question not answered with less than was known, because otherwise it need not end; `UploadRuns` proves it of the modelled server under the exact condition.
- UploadRuns.UploadToServer: leaves out the abort signal and a source shorter than declared, because the loop then returns or throws at once; an upload somebody aborted is returned as such.
- UploadProgress.RecoveringUploadEnds: has one request at a time and no abort, because overlapping requests have their own theorems in `UploadRuns`.
- PairingService.Service.Claim: takes the code as already upper-cased and leaves the device's display name out, because only identity matters to the statements.
- DerValues.WriteOid: starts from the parsed arcs, because `Number.parseInt` accepts trailing text.

Not modelled at all:

- Cryptography: hashes and signatures are the values they were made of, random values are numbers never used before.
- SQLite, Express, Electron, `fetch` and real streams: rows are maps, a transaction is one step, files are byte sequences.
- If-Range validators are one flag; header numbers beyond 2^53; the other response headers of `serveFile`.
- `stopAll` of the download queue (a pause of each running row), listeners, progress throttling, `safeFileName`.
- The operator's direct edits other than permissions, folders, approval, rejection, revocation and deletion.
- WebDAV authentication, permission checks, path resolution (`resolver.ts`), upload creation, abandoned-session sweeps.
- `clearCode` and `reset` of the rate limiter: a row removed, and a fresh limiter.
- Back-off delays and jitter of the event client and of the upload clients; frames that fail the schema.
- `indexFolder` coalescing, `endpointFromQr`, `safeRelativePath`, `utf8String`, `bitString` and `boolean`: they would only add easy members.
- JSON and schema decoding, user interface, tray, windows, firewall, updater and service worker.
