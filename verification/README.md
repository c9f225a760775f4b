# GaiaCom backend: a Dafny model and its proofs

This project models the stateful core of the GaiaCom backend and proves what that core
promises. `dafny verify dfyconfig.toml` checks all of it.

Code that changes tables, maps or buffers is a class or a method with a loop. Each such
method is proved equal to a specification function on values. Concurrent code is a
transition system: a state, the atomic steps (one SQL statement or transaction, one mutex
section), and theorems over every sequence of steps any number of handlers, workers or
threads can take.

| files | subject |
|---|---|
| `ReplayGuard`, `ReplayRuns`, `ReplayBounds`, `ReplayAnswers` | incoming PDUs: the in-memory guard, the table of claims, replay safety, and what senders are told |
| `FederationQueue`, `QueueRuns`, `QueueOverlap`, `QueueRetries` | outgoing PDUs: leases, fencing tokens, overlapping sends, and when a retry is due |
| `AuthStore`, `AuthRuns`, `DeviceRuns` | refresh rotation, device keys, pairings and sessions, and what ends a session |
| `Uuid`, `Transcript`, `TranscriptLayout`, `Envelope`, `HybridTrust` | message ids, the signed transcript, hybrid encryption, and what each half of it is worth alone |
| `Governance`, `VoteTexts`, `Consensus`, `CaseOutcomes`, `Appeals` | thresholds, the vote, consensus actions and suspensions, how long they last, what an appeal lifts |
| `AutoGovernance`, `GovernanceTerms` | minting of reviewers: one round of the worker, and all its rounds |
| `RateLimit`, `RateBursts` | the fixed-window limiter against an event log |
| `SqlTime` | times as the tables of queue, sessions, pairings and rate limits hold and compare them |
| `NodeLifecycle`, `LifecycleRuns`, `LifecycleProgress`, `ResponseRecorder` | embedded nodes, their registry, their responses |
| `Wrappers`, `Text`, `Base64`, `S2SHeader`, `PasswordHash` | the authorization header and the password string |
| `Quoting`, `EnvironmentFile`, `EnvironmentReading`, `EnvironmentNames`, `Paths` | the environment file, the names in it, and paths |
| `SetupValues`, `Setup`, `SetupChecks`, `SetupSuccess`, `SetupFile`, `SetupLimits`, `SetupResult` | provisioning: on maps, against the production checks, on the file itself, and the values it leaves |

## Findings

Some promises hold only under a condition. Each condition is proved to be exact, and a
run or an input outside it is given.

- **Replay safety** holds if and only if four things do. Completed rows are kept for at
  least the sum of 7200 s, one second less a clock tick, and the time between validation and
  claim. The completing statement follows within 3600 s. The releasing statement follows within 300 s. The process
  does not stop between storing and completing (`ReplayBounds.SafeExactlyWithinBounds`, with
  one run per violated bound).
- **The shipped retention of 7200 s is too short** on every clock finer than a second, because
  the window is checked in whole seconds and stays open for all of its last one
  (`ReplayBounds.ShippedRetentionIsShort`, `ReplayRuns.WindowInTicks`). One more second is
  enough for claims within a tick of validation (`ReplayBounds.OneMoreSecondIsEnough`).
- **A PDU called already processed** was stored, be it under another origin, unless its row is
  leased or a handler is on its id and has not stored yet. That one may fail, and then the
  sender was told so and nothing is stored
  (`ReplayAnswers.RepliesAreTrue`, `ReplayAnswers.RepeatIsLost`).
- **Sends of one item never overlap** if and only if claim and send budgets together stay
  below the 120 s lease (`QueueOverlap.NoOverlapExactlyWithinLease`). The shipped 30 s and
  40 s do.
- **Refresh**: the token in force is exchanged only strictly before its expiry second, and
  not at all with white space around it, because parsing trims the text and hashing does
  not. At the expiry second, and with white space, the session is revoked instead; after the
  expiry second the first check refuses without revoking
  (`AuthRuns.CurrentTokenIsExchanged`, `AuthRuns.PaddedTokenRevokes`).
- **Presenting a superseded token** ends the session for good, others leaving it alone, if and
  only if the request is not dropped before its revoking statement. A request that is lets the
  session go on refreshing
  (`AuthRuns.RevokedExactlyIfNotDropped`, `AuthRuns.RefusalCanBeLost`).
- **The winning action** is independent of map order if and only if no two actions tie at the
  top, on both count and priority. Ballots of reviews never do
  (`Governance.OrderIndependentExactly`, `Governance.ReviewBallotsAreDecided`).
- **Reviewers of a case are distinct** if and only if no read of its reviews fails, and **a case
  gets at most one action** if and only if no update of its status fails; the service takes no
  notice of either (`Consensus.NobodyReviewsTwiceExactly`, `Consensus.OneActionPerCaseExactly`).
- **An accepted appeal leaves no action of its case** if and only if the case is on a channel
  or has none: its actions on users, rooms, messages and posts are never deleted
  (`Appeals.LeavesNoneExactlyOnChannels`, `Appeals.OtherKindsKeepTheirAction`).
- **It lifts action and suspension for good**, once its update of the channel goes through and
  however its statements fall among others, if and only if besides the case is past new, which
  it is unless an update failed, and no review is under way that read it as new and has the
  votes: reviews and appeals do not share a lock
  (`Appeals.LiftedForGoodExactly`, `Appeals.ActionOutlivesAppeal`).
- **Nobody who holds a current credential is minted another** if and only if the second query
  for the credentials fails for no holder whose turn comes while a seat is left and whose
  minting would work (`AutoGovernance.NobodyTwiceExactly`). Then no more are minted than
  seats are free; otherwise more can be
  (`AutoGovernance.MintedWithinFreeSeats`, `AutoGovernance.MoreMintedThanFree`).
- **Two terms of one reviewer begin at least eleven days apart**, over all rounds of the worker,
  if and only if that second query never fails (`GovernanceTerms.TermsApartExactly`).
- **Reviewers with a valid term** are at most twice as many as there are seats, and can be that
  many, where the seats stay the same and everybody with a current term is counted
  (`GovernanceTerms.AtMostTwiceTheSeats`, `GovernanceTerms.TwiceTheSeatsIsReached`). A holder
  with an open case is not counted and keeps the term, so otherwise there is no such bound
  (`GovernanceTerms.NoBoundWithoutStanding`).
- **Deleting expired rate-limit rows** is invisible in all logs with a given bound on how
  late a call reaches the table if and only if that bound is zero
  (`RateLimit.CleanupInvisibleExactlyInOrder`).
- **Comparing times as text**, as queue, sessions, pairings and rate limits do, is comparing
  times, unless both are in the same second and the printed fraction of one goes on where that
  of the other ends, because trailing zeros are not printed: then it is exactly the other way
  round (`SqlTime.TextOrder`). A time on the
  full second comes after all others of that second (`SqlTime.FullSecondComesLast`).
- **At most twice the limit** gets through per window length, and no smaller bound holds
  (`RateBursts.AtMostTwiceTheLimit`, `RateBursts.TwiceTheLimitIsReached`).
- **Setup of the file the first setup wrote** succeeds if and only if that text is within the
  reader's limits, which the writer does not look at. It then writes the same text if and
  only if the last part kept of the database path does not end in white space
  (`SetupFile.SetupFileTwice`). A setting of many quotation marks is read once and never
  again (`SetupLimits.QuotedSettingIsTooLong`), and `/ /` is a path that changes
  (`Paths.SpaceAtTheEnd`).
- **Setup passes the production checks it runs on itself** if and only if the secrets it keeps
  are long enough once trimmed and the port it keeps is a port. A metrics token of 31 letters
  and a space passes setup's own checks and fails these
  (`SetupSuccess.SucceedsExactly`, `SetupSuccess.PaddedTokenFails`).
- **A login settles the password hash** if and only if no rehash was asked for, or the new
  hash was stored and the password has 12 to 512 bytes (`PasswordHash.LoginSettles`).
- **`NeedsRehash`** disagrees with verification exactly when the key length alone is not
  the default (`PasswordHash.NeedsRehashMissesTheKeyLength`).
- **The error that the algorithm does not match** is never seen by callers of `VerifyPassword`,
  which goes by the prefix (`PasswordHash.AlgorithmIsNeverMissed`).
- **The reserved transcript capacity** is two bytes short for an empty suite and for an
  empty message id. Validation excludes both (`Transcript.AadLength`).

## Model

| member | source | states |
|---|---|---|
| `ReplayGuard.ReplayStore.Claim` | Backend/repository/sql_store_federation_replay.go:9-56 | the three statements of the transaction succeed exactly on a key that is free, outdated or past its lease; outdated rows are gone and the claimed row is leased |
| `ReplayGuard.ReplayStore.Complete` | Backend/repository/sql_store_federation_replay.go:58-76 | succeeds exactly on a row in processing, which becomes completed at this time |
| `ReplayGuard.ReplayStore.Release` | Backend/repository/sql_store_federation_replay.go:78-84 | removes the row in processing under the key, whoever claimed it, and nothing else |
| `ReplayGuard.Service.Begin` | Backend/federation/federation_service.go:832-870 | an id is admitted exactly when it is neither remembered nor in processing and the cache has room |
| `ReplayGuard.Service.Evict` | Backend/federation/federation_service.go:832-870 | the sweep leaves exactly the entries young enough, in any iteration order |
| `ReplayGuard.Service.Drop` | Backend/federation/federation_service.go:832-870 | a refused claim gives the id back and remembers nothing |
| `ReplayGuard.Service.Finish` | Backend/federation/federation_service.go:872-887 | the id leaves processing and is remembered only if it was persisted |
| `ReplayRuns.WindowInTicks` | Backend/federation/federation_service.go:803-830 | on a clock of any resolution a PDU is in its window for exactly 7201 s, although the bounds are an hour either way |
| `ReplayRuns.ClaimIsExclusive` | Backend/repository/sql_store_federation_replay.go:9-56 | in every state within the bounds, a successful claim finds no other handler holding the row |
| `ReplayRuns.ClaimIsNewer` | Backend/federation/federation_service.go:803-870 | everything stored before under a claimed key was created before the window of the new PDU |
| `ReplayRuns.StepKeepsInv` | Backend/federation/federation_service.go:780-887 | all twelve kinds of step, restarts and failures among them, keep the replay invariant |
| `ReplayRuns.RunKeepsInv` | Backend/federation/federation_service.go:780-887 | so does every run |
| `ReplayRuns.ReplaySafety` | Backend/federation/federation_service.go:780-887 | over every run within the bounds: a second store under one origin and id has a later creation time, no PDU is stored twice, and processed and processing ids stay disjoint |
| `ReplayBounds.Intake` | Backend/federation/federation_service.go:780-801 | a PDU in the window, unknown to memory and claimable, is stored |
| `ReplayBounds.ShortRetentionReplays` | Backend/federation/federation_service.go:803-870 | with a retention short of the window and the claim delay, a run stores the same PDU twice |
| `ReplayBounds.LateCompleteReplays` | Backend/federation/federation_service.go:872-887 | with a completing statement later than the memory lasts, a run stores the same PDU twice |
| `ReplayBounds.LateReleaseReplays` | Backend/repository/sql_store_federation_replay.go:78-84 | with a release after the lease, a run stores the same PDU twice |
| `ReplayBounds.CrashReplays` | Backend/federation/federation_service.go:780-801 | with a crash between storing and completing, a run stores the same PDU twice |
| `ReplayBounds.SafeExactlyWithinBounds` | Backend/federation/federation_service.go:780-887 | replay safety over all runs holds if and only if the four bounds do |
| `ReplayBounds.ShippedRetentionIsShort` | Backend/repository/sql_store_federation_replay.go:9-56 | with the shipped two hours replay safety holds if and only if the clock ticks in whole seconds, the claim reads the same one as validation, and the other bounds hold |
| `ReplayBounds.OneMoreSecondIsEnough` | Backend/repository/sql_store_federation_replay.go:9-56 | with one second more it holds on every clock, if and only if the claim follows within a tick |
| `ReplayAnswers.AnswersExactly` | Backend/federation/federation_service.go:832-887 | over every run, by the run's own marks and handlers instead of the two maps: an id is refused as processed exactly when a handler is on it or it was marked in the last 3600 s, as overload exactly when neither holds and 50000 ids were, and admitted otherwise |
| `ReplayAnswers.MarkedIsRepeat` | Backend/federation/federation_service.go:832-887 | over every run without a restart, an id marked in the last hour is refused as processed, whatever happened since |
| `ReplayAnswers.RepliesAreTrue` | Backend/federation/federation_handler.go:97-106 | over every run, a PDU is accepted only when it is stored, and called a repeat only when one of its id was stored, its row is leased, or a handler is on its id and has not stored |
| `ReplayAnswers.RepeatIsLost` | Backend/federation/federation_handler.go:97-106 | a run in which the repeat is acknowledged and nothing is ever stored |
| `ReplayAnswers.CompletedIsKept` | Backend/repository/sql_store_federation_replay.go:9-84 | over every run, whatever fails, comes late or restarts, a completed row stays until its retention is over and every claim of its key is refused until then |
| `FederationQueue.QueueStore.Add` | Backend/repository/sql_store_federation.go:16-45 | a new row under an id never used before; no other row changes |
| `FederationQueue.QueueStore.SelectNext` | Backend/repository/sql_store_federation.go:47-75 | a claimable row no claimable row precedes, whatever the scan order, or none if there is none |
| `FederationQueue.QueueStore.ClaimNext` | Backend/repository/sql_store_federation.go:47-112 | only the selected row changes; it is sending, leased under the new token, one attempt further |
| `FederationQueue.QueueStore.Delete` | Backend/repository/sql_store_federation.go:115-131 | removes the row exactly under its current token; otherwise an error and no change |
| `FederationQueue.QueueStore.Save` | Backend/repository/sql_store_federation.go:133-168 | writes the copy back exactly under the current token; otherwise an error and no change |
| `FederationQueue.QueueStore.Reschedule` | Backend/federation/federation_service.go:535-548 | gives up at the tenth attempt, else backs off by ten times the square of the attempts |
| `QueueRuns.TotalInClosedForm` | Backend/federation/federation_service.go:535-548 | the delays after k failures add up to 10·k(k+1)(2k+1)/6 seconds |
| `QueueRuns.StepKeepsInv` | Backend/repository/sql_store_federation.go:47-168 | every step, by any number of stalling or crashing workers, keeps the queue's invariant |
| `QueueRuns.RunKeepsInv` | Backend/repository/sql_store_federation.go:47-168 | so does every run |
| `QueueRuns.EveryItemIsAccountedFor` | Backend/repository/sql_store_federation.go:16-168 | in every reachable state each id ever issued is a row or removed, never both; its content is what was enqueued; whatever was removed was delivered |
| `QueueRuns.OnlyTheHolderRemoves` | Backend/federation/federation_service.go:90-106 | a row disappears only by the delete of the worker holding its current token, after that worker delivered it |
| `QueueRuns.StaleForever` | Backend/repository/sql_store_federation.go:77-112 | a superseded token never becomes current again, in any run |
| `QueueRuns.StaleWorkerChangesNothing` | Backend/repository/sql_store_federation.go:115-168 | a delete or save under a superseded token changes neither rows nor history |
| `QueueRuns.RetriesAreBounded` | Backend/federation/federation_service.go:535-548 | pending means at most 9 attempts, sending at least 1, failed at least 10; all delays total at most 2850 s, below the receiver's window of 3600 s |
| `QueueOverlap.LiveWorkerKeepsItsLease` | Backend/federation/federation_service.go:620-653 | with budgets inside the lease, in every run each live worker's token is current and no two hold one item |
| `QueueOverlap.LongBudgetsOverlap` | Backend/federation/federation_service.go:620-653 | with budgets as long as the lease, a run has two workers sending one item |
| `QueueOverlap.NoOverlapExactlyWithinLease` | Backend/repository/sql_store_federation.go:14-112 | sends never overlap in any run if and only if the budgets fit inside the lease |
| `QueueOverlap.StartWorkerNeverOverlaps` | Backend/federation/federation_service.go:620-653 | the shipped budgets never overlap |
| `QueueRetries.ClaimableExactlyWhenDue` | Backend/repository/sql_store_federation.go:47-112 | over every run, by the run's own log: a pending item with k failures can be claimed exactly from 10·k·k s after it was added or last given back, one being sent exactly from 120 s after its claim, a failed one never |
| `QueueRetries.ClaimsComeInTurn` | Backend/repository/sql_store_federation.go:47-75 | over every run the claimed item is one abandoned by its worker if there is one, and among those alike the one due first |
| `QueueRetries.RetryWaits` | Backend/federation/federation_service.go:535-548 | given back after its k-th attempt, k below ten, and until it is claimed again, whatever others do, an item can be claimed exactly from 10·k·k s later |
| `QueueRetries.GivenUpForGood` | Backend/federation/federation_service.go:535-548 | given back after its tenth attempt it stays in the table and is never claimed again in any run |
| `AuthStore.Store.SetRefresh` | Backend/repository/sql_store_auth.go:496-509 | installs the digest exactly in a live session |
| `AuthStore.Store.Rotate` | Backend/repository/sql_store_auth.go:526-533 | compare-and-swap: replaces the digest exactly if the session is live, unexpired and holds the expected one |
| `AuthStore.Store.Revoke` | Backend/repository/sql_store_auth.go:535-554 | revokes exactly a live session of that user; otherwise an error and no change |
| `AuthStore.Store.RevokeAllExcept` | Backend/repository/sql_store_auth.go:85-90 | row by row, every session of the user but the kept one ends up revoked, no other changes |
| `AuthStore.Store.ChangePassword` | Backend/repository/sql_store_auth.go:68-97 | the new hash is stored and every other session of the user is revoked, or for an unknown user nothing changes |
| `AuthStore.Store.ApprovePairing` | Backend/repository/sql_store_auth.go:174-187 | approves exactly a pending pairing that has not expired |
| `AuthStore.Store.ConsumePairing` | Backend/repository/sql_store_auth.go:189-243 | all or nothing: consumes exactly an approved unexpired pairing of the session's user, reusing the id of known key material |
| `AuthStore.Store.FindKey` | Backend/repository/sql_store_auth.go:189-243 | the key with this material, or none carries it |
| `AuthStore.Store.RevokeKey` | Backend/repository/sql_store_auth.go:295-325 | the key and its live sessions are revoked in one step, or nothing changes |
| `AuthRuns.RunSucceeds` | Backend/repository/sql_store_auth.go:474-554 | in every run no session disappears, changes its user or comes back from being revoked |
| `AuthRuns.StepKeepsRefresh` | Backend/auth/auth_service.go:172-208 | every step keeps the invariant on digests, handlers and spent tokens |
| `AuthRuns.ExchangedAtMostOnce` | Backend/auth/auth_service.go:172-208 | under every interleaving each refresh token is exchanged at most once |
| `AuthRuns.SupersededTokenIsRefused` | Backend/auth/auth_service.go:172-208 | an exchanged token presented again to a live unexpired session puts the request on the way to revoke it |
| `AuthRuns.PaddedTokenIsRefused` | Backend/auth/auth_service.go:172-222 | so does any token with white space around it |
| `AuthRuns.CurrentTokenIsExchanged` | Backend/auth/auth_service.go:172-208 | undisturbed, the token in force is exchanged exactly when its expiry is still ahead; otherwise the session is on its way to be revoked |
| `AuthRuns.RevokedForever` | Backend/auth/auth_service.go:315-346 | once a session is revoked, no run exchanges a token of it or accepts an access token for it |
| `AuthRuns.RefusedForever` | Backend/auth/auth_service.go:315-346 | so for every session a refused refresh has revoked |
| `AuthRuns.RefusalRevokes` | Backend/auth/auth_service.go:172-208 | whatever others do before and after, a request that gets to its revoking statement ends the session for good |
| `AuthRuns.SupersededTokenRevokes` | Backend/auth/auth_service.go:172-208 | so does the request that presented an exchanged token |
| `AuthRuns.PaddedTokenRevokes` | Backend/auth/auth_service.go:172-222 | and the one that presented a token with white space around it |
| `AuthRuns.RevokedExactlyIfNotDropped` | Backend/auth/auth_service.go:172-208 | with nobody else revoking, once the request has ended the session is revoked if and only if the request was not dropped |
| `AuthRuns.LostRefusal` | Backend/auth/auth_service.go:172-208 | if it is dropped, the token in force is exchanged as if nothing had happened |
| `AuthRuns.RefusalCanBeLost` | Backend/auth/auth_service.go:172-208 | a reachable state and a run in which it is |
| `AuthRuns.StepKeepsDevices` | Backend/repository/sql_store_auth.go:174-325 | every step keeps the invariant across sessions, keys and pairings |
| `AuthRuns.LiveSessionsHaveLiveKeys` | Backend/devices/device_pairing_service.go:26-135 | in every run an unrevoked session bound to a key points to an active key of its user, and each pairing is consumed at most once |
| `AuthRuns.RepairingReusesTheKey` | Backend/repository/sql_store_auth.go:189-243 | pairing known material again takes the id it had and revives no session |
| `DeviceRuns.ConsumeBinds` | Backend/repository/sql_store_auth.go:189-243 | consuming binds exactly the presenting session to the key, which is active and has the pairing's material and signing key, and, if new, its user; every other session, key and pairing is as before |
| `DeviceRuns.RevokeKeyRevokesExactly` | Backend/repository/sql_store_auth.go:295-325 | revoking a key ends exactly the live sessions of its user bound to it |
| `DeviceRuns.BoundSessionDiesWithItsKey` | Backend/repository/sql_store_auth.go:189-325 | over every run in which a session bound by a pairing is not bound anew, from the revocation of its key on nothing comes of it: no exchange, no accepted access token |
| `DeviceRuns.ConsumedWasApproved` | Backend/repository/sql_store_auth.go:174-243 | over every run a consumed pairing was started and approved, has not expired, and is of the session's user |
| `DeviceRuns.ChangePasswordRevokesExactly` | Backend/repository/sql_store_auth.go:68-97 | of the user's sessions all but the kept one are revoked; the kept one and everybody else's are as before |
| `DeviceRuns.LogoutRevokesExactly` | Backend/repository/sql_store_auth.go:535-554 | a logout revokes the one session, if it is the user's |
| `DeviceRuns.ChangedPasswordEndsOthers` | Backend/repository/sql_store_auth.go:68-97 | over every run from then on nothing comes of any other session of the user |
| `DeviceRuns.ExchangeIssues` | Backend/repository/sql_store_auth.go:526-533 | an exchange spends the token presented and issues the next for 2592000 s from then |
| `DeviceRuns.LoginIssues` | Backend/repository/sql_store_auth.go:496-509 | so does a login |
| `DeviceRuns.TokenLastsThirtyDays` | Backend/auth/auth_service.go:172-208 | while nothing else happens to its session, an issued token is taken up exactly for thirty days and exchanged exactly before they are over |
| `DeviceRuns.AcceptedOnlyWhile` | Backend/auth/auth_service.go:315-346 | over every run an access token for a session is accepted only in its time, for the session's user, and if the session was live all along |
| `Uuid.Generate` | Backend/mobileapi/message_crypto_helpers.go:107-133 | the two-index loop stays in bounds and writes the text of the stamped bytes |
| `Uuid.Parse` | Backend/core/uuid/uuid.go:25-54 | accepts exactly the well-formed texts and returns their 16 bytes |
| `Uuid.PrintIsText` | Backend/core/uuid/uuid.go:56-68 | the printer and the generator's loop write the same text for all bytes |
| `Uuid.TextRoundTrip` | Backend/core/uuid/uuid.go:25-68 | parsing what was printed gives the bytes back |
| `Uuid.CanonicalExactly` | Backend/mobileapi/message_types.go:167-174 | the canonical texts are exactly those of the non-nil values |
| `Uuid.StampedBits` | Backend/mobileapi/message_crypto_helpers.go:107-133 | version 4 and variant 10 are set as in section 5.4 of RFC 9562, every other bit is the random one |
| `Uuid.GeneratedIsCanonical` | Backend/mobileapi/message_crypto_helpers.go:107-133 | a generated id is canonical and reads back as its stamped bytes |
| `Transcript.AppendPrefixed` | Backend/mobileapi/message_transcript.go:80-86 | a two-byte length, then the bytes, after what was there |
| `Transcript.AppendTimestamp` | Backend/mobileapi/message_transcript.go:88-92 | the eight big-endian bytes, after what was there |
| `Transcript.AppendFields` | Backend/mobileapi/message_transcript.go:23-45 | the appends in order give the concatenation of the eleven fields |
| `Transcript.BuildAad` | Backend/mobileapi/message_transcript.go:23-45 | the additional data is that concatenation |
| `Transcript.BuildSignaturePayload` | Backend/mobileapi/message_transcript.go:47-71 | the signed bytes are the additional data and the payload's hash |
| `Transcript.AadLength` | Backend/mobileapi/message_transcript.go:23-78 | the length is the reserved capacity, but for two bytes each when suite or id is empty |
| `Transcript.CapacityIsExact` | Backend/mobileapi/message_transcript.go:23-78 | for validated fields both buffers are exactly as long as reserved |
| `Transcript.AadInjective` | Backend/mobileapi/message_transcript.go:23-45 | for validated fields the additional data determines every field up to the ciphertext's hash, although the device key id is optional and untagged |
| `Transcript.SignaturePayloadInjective` | Backend/mobileapi/message_transcript.go:47-71 | for validated fields the signed bytes determine every field up to the two hashes |
| `Transcript.BigEndianInjective` | Backend/mobileapi/message_transcript.go:80-92 | numbers that fit the width have different encodings |
| `Transcript.CombineHybridSecrets` | Backend/mobileapi/message_transcript.go:94-102 | the four writes into one buffer give both secrets, each after its length |
| `Transcript.HybridInjective` | Backend/mobileapi/message_transcript.go:94-102 | two pairs of secrets below 4 GiB never combine to the same bytes |
| `TranscriptLayout.AadLayout` | Backend/mobileapi/message_transcript.go:23-45 | where each of the eleven fields of a validated message stands, in bytes from the start |
| `TranscriptLayout.SignedLayout` | Backend/mobileapi/message_transcript.go:47-71 | what is signed is the additional data and behind it the payload's hash |
| `TranscriptLayout.PrefixedBytes` | Backend/mobileapi/message_transcript.go:80-86 | the length in two bytes, highest first, then each character's byte |
| `TranscriptLayout.HybridLayout` | Backend/mobileapi/message_transcript.go:94-102 | where the two secrets and their lengths stand |
| `Envelope.DeriveKey` | Backend/mobileapi/message_crypto_helpers.go:34-59 | the key of both secrets with salt and label, or nothing when a step refuses |
| `Envelope.PickIdAndTime` | Backend/mobileapi/message_encrypt.go:31-183 | settles on a canonical id and a positive time, supplied or generated, exactly when the clock allows |
| `Envelope.DeriveSentKey` | Backend/mobileapi/message_encrypt.go:31-183 | the hybrid key for the recipient's capability |
| `Envelope.SealAndSign` | Backend/mobileapi/message_encrypt.go:31-183 | sealed under the transcript of its own fields and signed by every key the suite asks for |
| `Envelope.SealedIsValid` | Backend/mobileapi/message_types.go:106-165 | what is sealed passes the envelope's validation |
| `Envelope.Encrypt` | Backend/mobileapi/message_encrypt.go:31-183 | succeeds exactly on accepted inputs, with a valid sealed message |
| `Envelope.Decrypt` | Backend/mobileapi/message_decrypt.go:16-122 | signatures first, then keys, then the opened payload; nothing otherwise |
| `Envelope.KeysAgree` | Backend/mobileapi/message_decrypt.go:16-122 | recipient and sender derive the same key |
| `Envelope.SealedOpens` | Backend/mobileapi/message_decrypt.go:16-122 | a sealed message opens for the bundle it was sealed to |
| `Envelope.RoundTrip` | Backend/mobileapi/message_encrypt.go:31-183 | for all accepted inputs, both suites, supplied or generated id and time: valid, and decrypted to the same plaintext |
| `Envelope.OnlySentDecrypts` | Backend/mobileapi/message_decrypt.go:53-85 | for an honest sender, if no presented signature is a forgery and no hashes collide, whatever decrypts is a message the sender sent to this bundle, field by field |
| `Envelope.OnlySentPlaintexts` | Backend/mobileapi/message_decrypt.go:16-122 | and it decrypts to the plaintext that was sent |
| `Envelope.HonestTrafficQualifies` | Backend/mobileapi/message_decrypt.go:16-122 | these hypotheses hold of every honest sending beside any claim that does not verify |
| `Envelope.HonestTrafficExists` | Backend/mobileapi/message_decrypt.go:16-122 | and there are such functions, keys, a message and a claim |
| `HybridTrust.OnlySentTopSecretDecrypts` | Backend/mobileapi/message_decrypt.go:68-85 | if only ML-DSA is unforged, whatever top secret message decrypts is one the sender sent to this bundle, field by field |
| `HybridTrust.EitherSchemeIsEnough` | Backend/mobileapi/message_decrypt.go:53-85 | so one of the two schemes unforged is enough for top secret messages |
| `HybridTrust.HonestTopSecretQualifies` | Backend/mobileapi/message_decrypt.go:53-85 | the hypotheses hold of every honest top secret sending beside any claim that does not verify |
| `HybridTrust.HonestTopSecretExists` | Backend/mobileapi/message_decrypt.go:53-85 | there are functions, keys, a top secret message and a claim to which this applies |
| `HybridTrust.OtherMlSignatureIsRefused` | Backend/mobileapi/message_decrypt.go:68-85 | a sent top secret message with an ML-DSA signature that does not verify is refused, however good its other signature |
| `HybridTrust.OtherEdSignatureIsRefused` | Backend/mobileapi/message_decrypt.go:60-67 | so is any sent message with an Ed25519 signature that does not verify |
| `HybridTrust.KeyIsBoundToBothSecrets` | Backend/mobileapi/message_crypto_helpers.go:34-59 | two derivations with the same key had both secrets, ephemeral key, encapsulated key and suite the same, if the extraction does not collide on their inputs |
| `HybridTrust.PayloadIsBoundToItsHeader` | Backend/mobileapi/message_decrypt.go:86-122 | signatures aside, the payload of a sent message decrypts only under the header it was sealed with, if it does not open under other additional data |
| `Governance.SeatsAreShares` | Backend/governance/service.go:205-231 | the seats are the least numbers covering two fifths of the users and seven twentieths of those, never more than there are |
| `Governance.ThresholdIsReachable` | Backend/governance/service.go:192-250 | for every user count the reviewer minimum is at most the seats, and that many critical votes reach the points |
| `Governance.ThresholdGrows` | Backend/governance/service.go:233-250 | a growing node never gets easier to act on |
| `Governance.Tally` | Backend/governance/service.go:542-683 | the loop yields the votes per action, the distinct voters and their weighted points |
| `Governance.ConsensusActionType` | Backend/governance/service.go:272-290 | whatever the iteration order, the result has the most votes and, among those, the highest priority |
| `Governance.ChooseIsOutcome` | Backend/governance/service.go:272-290 | the loop over any enumeration of the ballot ends with such an action |
| `Governance.OrderIndependentExactly` | Backend/governance/service.go:272-290 | all enumerations agree if and only if no two actions tie at the top on count and priority |
| `Governance.ReviewBallotsAreDecided` | Backend/governance/service.go:272-290 | ballots of the four listed actions never tie |
| `Governance.MetHasWinner` | Backend/governance/service.go:542-683 | a threshold met means an action came out, so the fallback is never taken |
| `Governance.WinnerIsUnique` | Backend/governance/service.go:542-683 | only one action can come out of a set of reviews |
| `Governance.TheSeverestOfTheMost` | Backend/governance/service.go:272-290 | the action that comes out is the first of suspend, timeout, quarantine and warn among those with the most votes, and has at least one |
| `Governance.PointsByVotes` | Backend/governance/service.go:192-203 | the points are four, three, two and one times the votes of each severity |
| `Governance.ThresholdIsLeast` | Backend/governance/service.go:233-250 | the reviewers asked for are the least that make half of the seats, two where there are two seats, and the points twice the seats or four |
| `VoteTexts.StoredReadsTheSame` | Backend/governance/service.go:542-557 | the words stored for an accepted vote are their own canonical form, so the tally reads the vote that was cast |
| `VoteTexts.WordsCount` | Backend/governance/service.go:542-557 | what each accepted word counts for: severities in points, recommendations as a vote for their action, a rejection for none |
| `Consensus.Service.HasReviewed` | Backend/governance/service.go:570-578 | the loop finds exactly the reviewers of the case |
| `Consensus.Service.ActOn` | Backend/governance/service.go:614-680 | acts exactly when the threshold is met on a new case, for the action that came out: status, suspension of the channel and action row of the case's kind, as far as the writes go through |
| `Consensus.Service.ReviewCase` | Backend/governance/service.go:542-683 | records the review exactly for three listed words of an authorised reviewer not seen to have reviewed the case, then acts as above if the reviews can be read again |
| `Consensus.StepsAddUp` | Backend/governance/service.go:542-683 | undisturbed, the separate statements have the effect of the whole review, whichever of them fail |
| `Consensus.EveryActionIsJustified` | Backend/governance/service.go:542-683 | over every interleaving, whatever fails, each decision rested on reviews that met the threshold and came out for its action; each action row is what its case was decided on, on that case's target; each channel suspended by a case is that case's channel, decided to be suspended or quarantined |
| `Consensus.NobodyReviewsTwiceExactly` | Backend/governance/service.go:570-578 | over every run the reviewers of a case are distinct, if and only if no read of the reviews fails |
| `Consensus.UnreadReviewerVotesAgain` | Backend/governance/service.go:570-578 | a run in which one votes twice |
| `Consensus.OneActionPerCaseExactly` | Backend/governance/service.go:636-680 | over every run a case has at most one action, if and only if no update of a status fails |
| `Consensus.LostUpdateActsAgain` | Backend/governance/service.go:636-680 | a run in which a case gets two |
| `Consensus.DecidedAtMostOnce` | Backend/governance/service.go:636-680 | where none fails, no case is ever decided twice, even after its action was deleted |
| `Consensus.NeverNewAgain` | Backend/governance/service.go:884-995 | a case past new never returns to new |
| `CaseOutcomes.ReviewLeaves` | Backend/governance/service.go:614-680 | value by value what an undisturbed review leaves: the status, the one action and its kind, and the channel suspended exactly by a suspension or a quarantine; or the review alone |
| `CaseOutcomes.FreedExactly` | Backend/governance/service.go:966-1044 | a suspension is ended by an operator, or by an accepted appeal in a case on that channel, and by nothing else |
| `CaseOutcomes.SuspensionHolds` | Backend/governance/service.go:614-680 | a channel decided to be suspended or quarantined is suspended over any run that does not do either |
| `CaseOutcomes.DeletedExactly` | Backend/governance/service.go:966-984 | an action is deleted exactly by an accepted appeal in a case of the same target, if it is one on a channel |
| `CaseOutcomes.StatusTells` | Backend/governance/service.go:542-995 | over every run, whatever fails, an appealed case has an appeal, a closed one a decided appeal, and an actioned one that is not on a channel a decision |
| `Appeals.LeavesNoneExactlyOnChannels` | Backend/governance/service.go:966-984 | in every reachable state the deletion of an accepted appeal leaves no action of its case if and only if the case is on a channel or had none |
| `Appeals.StaysLiftedExactly` | Backend/governance/service.go:542-683 | a case with neither action nor suspension gets none in any run, if and only if it is past new and no review is under way that read it as new and has the votes |
| `Appeals.LiftedForGoodExactly` | Backend/governance/service.go:935-995 | in every reachable state an accepted appeal whose update of the channel goes through lifts action and suspension of its case for good, over all interleavings, if and only if the case is past new, nothing is pending on it, and it is on a channel or has no action; where no update fails it is past new |
| `Appeals.ActionOutlivesAppeal` | Backend/governance/service.go:542-683 | a reachable state of a channel case, with nothing failing, in which such a review is under way |
| `Appeals.OtherKindsKeepTheirAction` | Backend/governance/service.go:975-980 | for every other kind, a reachable state with nothing failing or pending from which an accepted appeal leaves the action |
| `Consensus.DistinctVotersAreCounted` | Backend/governance/service.go:542-683 | with distinct reviewers the set of voters counts every voting review |
| `AutoGovernance.SortIsRanked` | Backend/governance/service.go:1268-1273 | the sort yields the same candidates as often, ranked by messages then age |
| `AutoGovernance.SortIsStable` | Backend/governance/service.go:1268-1273 | candidates level with each other keep their order |
| `AutoGovernance.CountUsers` | Backend/governance/service.go:252-260 | the number of distinct users with an active identity |
| `AutoGovernance.SeatsHeld` | Backend/governance/service.go:1249-1262 | whether a current unrevoked credential of each kind exists |
| `AutoGovernance.AlreadyCurrent` | Backend/governance/service.go:313-325 | whether a current credential exists, revoked or not |
| `AutoGovernance.Survey` | Backend/governance/service.go:1219-1266 | exactly the candidates, in order, and the seats held by identities in good standing whose credentials could be read |
| `AutoGovernance.Mint` | Backend/governance/service.go:1278-1331 | walks down the ranking, minting everyone eligible until the seats are full, seniors first while senior seats last |
| `AutoGovernance.WalkedDown` | Backend/governance/service.go:1278-1331 | walking down until the seats are full mints exactly those who can be minted and find a seat left by those above them |
| `AutoGovernance.RunAutoGovernance` | Backend/governance/service.go:1193-1331 | exactly those candidates are minted who are not seen to hold a current credential and find a seat left; holders and recipients together stay within the seats, likewise seniors; nobody eligible is passed over for a lower rank; seats stay free only when nobody is left |
| `AutoGovernance.NobodyTwiceExactly` | Backend/governance/service.go:1284-1287 | no holder of a current credential is minted another if and only if the second query fails for none whose turn comes while a seat is left |
| `AutoGovernance.UnreadHolderIsMintedAgain` | Backend/governance/service.go:1284-1287 | a node on which one is |
| `AutoGovernance.MintedWithinFreeSeats` | Backend/governance/service.go:1278-1331 | where no holder is minted again, at most as many credentials are minted as seats are free, likewise for seniors |
| `AutoGovernance.MoreMintedThanFree` | Backend/governance/service.go:1278-1331 | a node of two seats, one of them free, on which two are minted |
| `AutoGovernance.EarnedInTurn` | Backend/governance/service.go:1219-1331 | each recipient sent five messages, a senior fifteen, and has no case and no score; whoever did and got nothing sent fewer than each recipient, or as many and is no older |
| `AutoGovernance.SeatsAreLive` | Backend/governance/service.go:1249-1262 | a seat is held exactly in good standing and by a readable unrevoked credential with more than 259200 s to run |
| `GovernanceTerms.CurrentExactly` | Backend/governance/service.go:313-325 | a term of two weeks keeps its seat for the 950400 s after the moment it began |
| `GovernanceTerms.TermsApartExactly` | Backend/governance/service.go:1175-1331 | over all rounds two terms of one identity begin at least 950400 s apart, if and only if the second query never fails |
| `GovernanceTerms.UnreadOverlaps` | Backend/governance/service.go:1284-1287 | two rounds in which they do not |
| `GovernanceTerms.AtMostTwiceTheSeats` | Backend/governance/service.go:1175-1331 | over all rounds of a steady node, at no moment do more than twice as many identities hold a valid term as there are seats |
| `GovernanceTerms.TwiceTheSeatsIsReached` | Backend/governance/service.go:1175-1331 | two rounds of a steady node after which as many do |
| `GovernanceTerms.NoBoundWithoutStanding` | Backend/governance/service.go:1219-1264 | with one seat and holders accused of something, any number up to one a second do |
| `RateLimit.Store.Increment` | Backend/repository/sql_store_rate_limit.go:10-39 | counts one more in a live window or opens a new one, then, if the delete goes through, drops other keys' expired rows; invalid requests change nothing |
| `RateLimit.Store.Count` | Backend/repository/sql_store_rate_limit.go:41-56 | the hits of a live window, else zero |
| `RateLimit.Store.Reset` | Backend/repository/sql_store_rate_limit.go:58-64 | removes the key's row only |
| `RateLimit.AnswersCountTheWindow` | Backend/repository/sql_store_rate_limit.go:10-64 | for every log in clock order, wherever the deletes fall, each answer is the number of increments since the key's window opened |
| `RateLimit.CleanupOnlyLacks` | Backend/repository/sql_store_rate_limit.go:37-37 | with deletes falling anywhere after their upsert, the table only lacks rows that have expired |
| `RateLimit.CleanupIsInvisible` | Backend/repository/sql_store_rate_limit.go:37-37 | so in clock order no answer differs from that of the log without its deletes |
| `RateLimit.LateCallSeesCleanup` | Backend/repository/sql_store_rate_limit.go:37-37 | one call a second late is answered differently |
| `RateLimit.CleanupInvisibleExactlyInOrder` | Backend/repository/sql_store_rate_limit.go:10-56 | deletes are invisible in all logs with a given lag bound if and only if the bound is zero |
| `RateBursts.WindowsAreApart` | Backend/repository/sql_store_rate_limit.go:20-27 | windows of a key open at least one window length apart |
| `RateBursts.WindowLetsThrough` | Backend/repository/sql_store_rate_limit.go:20-27 | one window answers at most L increments with at most L |
| `RateBursts.AtMostTwiceTheLimit` | Backend/repository/sql_store_rate_limit.go:10-39 | without resets, any closed stretch of one window length holds at most 2L such increments |
| `RateBursts.TwiceTheLimitIsReached` | Backend/repository/sql_store_rate_limit.go:10-39 | for every key, window and L some log reaches 2L |
| `SqlTime.TextOrder` | Backend/repository/sql_store_helpers.go:758-763 | for all two different times of the years 1 to 9999, the text of one comes first if and only if the time does, but for the pairs whose fractions continue each other, where it is the reverse |
| `SqlTime.WholeSecondsAreOrdered` | Backend/repository/sql_store_helpers.go:758-763 | whole seconds, and times in different seconds, are always compared right |
| `SqlTime.FullSecondComesLast` | Backend/repository/sql_store_helpers.go:758-763 | a time on the full second is taken to be after every other of that second |
| `NodeLifecycle.EmbeddedNode.constructor` | Backend/embedded_node.go:112-120 | an open node with its started workers and nothing in flight |
| `NodeLifecycle.EmbeddedNode.Begin` | Backend/embedded_transport_queue.go:66-87 | an operation is counted in exactly when the node is not closed |
| `NodeLifecycle.EmbeddedNode.MarkClosed` | Backend/embedded_node.go:161-173 | exactly the first caller goes on to drain |
| `NodeLifecycle.MobileNodeRegistry.Register` | Backend/mobile_node_registry.go:71-83 | refused exactly when closed or out of handles; otherwise the next handle names the node |
| `NodeLifecycle.MobileNodeRegistry.Lookup` | Backend/mobile_node_registry.go:86-108 | the node of a valid handle in an open registry |
| `NodeLifecycle.MobileNodeRegistry.Take` | Backend/mobile_node_registry.go:110-125 | hands out and forgets the node of the handle |
| `NodeLifecycle.MobileNodeRegistry.TakeAll` | Backend/mobile_node_registry.go:127-142 | the loop empties the map into a list of exactly its nodes; a second call takes nothing |
| `LifecycleRuns.StepKeepsInv` | Backend/embedded_node.go:123-177 | every step of every thread keeps the invariant on counts, drains, ownership, handles and the lock |
| `LifecycleRuns.RunKeepsInv` | Backend/embedded_node.go:123-177 | so does every run |
| `LifecycleRuns.InFlightIsExact` | Backend/embedded_node.go:136-143 | in every reachable state the wait group is the number of admitted unfinished operations |
| `LifecycleRuns.NoneAdmittedAfterClose` | Backend/embedded_node.go:136-173 | from the moment a node closes, the operations on it are among those then in flight |
| `LifecycleRuns.DatabaseClosesOnceDrained` | Backend/embedded_node.go:161-177 | the database closes at most once, and then no operation or worker is left |
| `LifecycleRuns.HandlesAreNeverReused` | Backend/mobile_node_registry.go:71-83 | handles given out are distinct, increasing and within 64 bits |
| `LifecycleRuns.CloseAllClosesEveryNode` | Backend/mobile_node_registry.go:56-151 | once the registry is closed and every pending open and close is through, every node ever created had its database closed |
| `LifecycleProgress.NeverStuck` | Backend/mobile_node_registry.go:71-83 | while a thread is busy some step can finish work, although a refused open drains its node under the registry lock |
| `LifecycleProgress.ProgressLeavesLess` | Backend/embedded_node.go:161-177 | every such step leaves less work |
| `LifecycleProgress.ShutdownEnds` | Backend/mobile_node_registry.go:127-151 | with nothing new started, no run is longer than the work there was |
| `ResponseRecorder.Recorder.Write` | Backend/embedded_node.go:279-288 | the data is taken whole within the limit, else refused from then on |
| `ResponseRecorder.WholeOrRefused` | Backend/embedded_node.go:279-288 | for all writes: refused if and only if their total exceeds the limit, otherwise recorded whole |
| `ResponseRecorder.StatusIsTheFirstSaid` | Backend/embedded_node.go:273-295 | over whatever a handler does, the status is the first one it said, a write saying 200, and 200 if it said none |
| `ResponseRecorder.BodyIsItsChunks` | Backend/embedded_node.go:273-288 | and headers in between leave the body alone |
| `Base64.RoundTrip` | Backend/auth/password.go:76-77 | decoding undoes encoding for all bytes, with padding and without |
| `Base64.KnownAnswers` | Backend/auth/password.go:76-77 | the alphabet and padding are those of the examples in section 10 of RFC 4648 |
| `S2SHeader.IsDomain` | Backend/core/validate/identity.go:54-67 | the loop decides exactly the domain shape |
| `S2SHeader.ParseField` | Backend/federation/federation_service.go:588-595 | one part as a known name and an unquoted value, or nothing |
| `S2SHeader.ParseQuotedHeaderFields` | Backend/federation/federation_service.go:582-604 | the loop succeeds exactly on three filled fields of different names |
| `S2SHeader.AllThreeNames` | Backend/federation/federation_service.go:588-600 | three accepted fields are all three names |
| `S2SHeader.CollectedCollects` | Backend/federation/federation_service.go:588-600 | collecting succeeds exactly on entries with different names and holds just those |
| `S2SHeader.CollectedInAnyOrder` | Backend/federation/federation_service.go:588-600 | the same parts in another order give the same map |
| `S2SHeader.ParseS2SHeader` | Backend/federation/federation_service.go:550-580 | the header's three values exactly when all checks pass |
| `S2SHeader.ParsedInAnyOrder` | Backend/federation/federation_service.go:550-604 | three comma-free parts parse alike in every order, whatever they hold |
| `S2SHeader.HeaderRoundTrip` | Backend/federation/federation_service.go:340-353 | for every 64-byte signature, valid domain and 64-bit time, parsing the printed header gives them back |
| `S2SHeader.PrintedAs` | Backend/federation/federation_service.go:340-353 | the text of the header: scheme, then signature, key id and time, named and quoted |
| `PasswordHash.ParseParams` | Backend/auth/password.go:160-191 | the loop reads memory, iterations and parallelism, the last of a name winning, and refuses zero, unknown or oversized ones |
| `PasswordHash.VerifyArgon2id` | Backend/auth/password.go:107-158 | each malformed part gets its error; otherwise match, mismatch and rehash as the parts say |
| `PasswordHash.ParamsRoundTrip` | Backend/auth/password.go:160-191 | the printed parameters are read back |
| `PasswordHash.EncodedVerifies` | Backend/auth/password.go:66-158 | a printed string is taken apart into what it was printed from |
| `PasswordHash.HashVerifies` | Backend/auth/password.go:66-158 | for all non-zero parameters and passwords of 12 to 512 bytes the hash verifies, and asks for a rehash exactly when a parameter is not the default |
| `PasswordHash.CurrentExactly` | Backend/auth/password.go:66-158 | in numbers: 12 to 512 bytes are hashed, and no rehash is asked for exactly with 65536 KiB, three passes, four lanes and a key of 32 bytes |
| `PasswordHash.OtherVersionIsRefused` | Backend/auth/password.go:107-135 | any other version number than 19 is refused as such |
| `PasswordHash.AlgorithmIsNeverMissed` | Backend/auth/password.go:92-118 | what is handed on by its prefix is never refused for its algorithm |
| `PasswordHash.OnlyTheKeyMatches` | Backend/auth/password.go:107-158 | another password matches if and only if it derives the same key |
| `PasswordHash.NeedsRehashMissesTheKeyLength` | Backend/auth/password.go:214-229 | the string-only check agrees with verification unless the key length alone differs |
| `PasswordHash.Account.Login` | Backend/auth/auth_service.go:128-138 | succeeds exactly on a match, and renews the hash when asked to and able to |
| `PasswordHash.LoginSettles` | Backend/auth/auth_service.go:128-138 | afterwards the password still matches, and no rehash is asked for exactly under the stated condition |
| `PasswordHash.LoginIsAFixedPoint` | Backend/auth/auth_service.go:128-138 | after one stored login further logins change nothing |
| `Quoting.UnescapedOfEscaped` | Backend/provision/environment.go:263-263 | reading a printed value gives it back, for every byte string without line feed and every notion of printable |
| `Quoting.QuoteKeepsOut` | Backend/provision/environment.go:351-356 | no line break gets into the text unless it was in the value |
| `EnvironmentFile.ParseEnvironmentValue` | Backend/provision/environment.go:252-273 | bare, single-quoted and double-quoted values, and their errors |
| `EnvironmentFile.ReadEnvironmentFile` | Backend/provision/environment.go:208-250 | the settings line by line; refuses oversized files and lines, bad syntax and duplicates |
| `EnvironmentFile.WriteEnvironment` | Backend/provision/environment.go:296-356 | the commented settings in key order, or nothing when a key or value cannot be written |
| `EnvironmentFile.EnvironmentRoundTrip` | Backend/provision/environment.go:208-356 | for all valid keys and values free of NUL, CR and LF, reading what was written gives the same map if and only if the size limits are kept |
| `EnvironmentReading.ReadExactly` | Backend/provision/environment.go:208-250 | a file is read if and only if it has at most 1048576 bytes, its lines fewer than 131072, each is blank, a comment or a setting, and no key is set twice; what is known then is what its lines set |
| `Paths.CleanIsIdempotent` | Backend/provision/environment.go:372-382 | cleaning a clean path changes nothing |
| `Paths.CleanIsNotLonger` | Backend/provision/environment.go:372-382 | cleaning never lengthens a path |
| `Paths.SilentPartsVanish` | Backend/provision/environment.go:372-382 | empty parts and dots can be cut out anywhere |
| `Paths.DotsTakeBack` | Backend/provision/environment.go:372-382 | two dots cut out the part before them, and nothing at the root |
| `Paths.ProperIsClean` | Backend/provision/environment.go:372-382 | and a path without any of these is clean already |
| `Paths.NormalizedTwice` | Backend/provision/environment.go:372-382 | for any working directory, normalising again succeeds where the path can be written, and changes nothing if and only if it can and the last part kept of the path does not end in white space |
| `Paths.SpaceAtTheEnd` | Backend/provision/environment.go:372-382 | a path for which it does change |
| `SetupValues.DrawEach` | Backend/provision/environment.go:107-121 | the loop draws exactly the blank secrets |
| `SetupValues.FillSecrets` | Backend/provision/environment.go:97-121 | a long legacy secret is carried over, other blanks are drawn, nothing else changes |
| `SetupValues.AssignAll` | Backend/provision/environment.go:82-121 | every managed variable has its value, every other is untouched |
| `SetupValues.SecretsAreKept` | Backend/provision/environment.go:97-121 | no secret that is there changes |
| `SetupValues.MadeTwice` | Backend/provision/environment.go:82-121 | assigning again, with other secrets drawn, gives the same map |
| `Setup.RunSetup` | Backend/provision/environment.go:46-141 | the checks, the assignments, the production checks and the normalised path, or an error |
| `Setup.SetupTwice` | Backend/provision/environment.go:46-141 | a second setup of the same map with the same options succeeds whatever it draws, and leaves the same map if and only if the last part kept of the path it started from does not end in white space |
| `Setup.SetupKeepsSecrets` | Backend/provision/environment.go:46-141 | no secret that is there changes, nor any variable setup does not know |
| `SetupChecks.MadePassesWith` | Backend/config/config.go:61-122 | what setup makes passes the production checks if and only if the secrets it keeps are long once trimmed and the port it keeps is one |
| `SetupSuccess.SucceedsExactly` | Backend/provision/environment.go:46-141 | setup succeeds if and only if its own checks pass, what it keeps passes the production checks, the path asked for is not blank, and neither the path it starts from nor any value it keeps holds NUL, CR or LF |
| `SetupSuccess.PaddedTokenFails` | Backend/config/config.go:61-122 | a token that passes the one and fails the other |
| `EnvironmentNames.SpellingOfNamed` | Backend/provision/environment.go:82-121 | every name in a file is the spelling of the variable it stands for |
| `EnvironmentNames.NamedOfSpelling` | Backend/provision/environment.go:82-121 | every known variable's spelling is a valid key that stands for that variable |
| `EnvironmentNames.KeyedOfSpelled` | Backend/provision/environment.go:82-121 | spelling the variables and naming them again gives the same map |
| `SetupFile.SetUpFileIs` | Backend/provision/environment.go:46-141 | whatever is made of a file can be written, so a setup of it fails only where reading it or the setup of its map does |
| `SetupFile.SetupFileTwice` | Backend/provision/environment.go:46-356 | a second setup of the written file succeeds if and only if the text is within the reader's limits, and then writes the same text if and only if the path condition holds |
| `SetupLimits.OtherIsKept` | Backend/provision/environment.go:82-121 | a variable setup does not know changes nothing about the setup and is kept |
| `SetupLimits.QuotedSettingIsTooLong` | Backend/provision/environment.go:208-356 | a file that is set up once and refused by every setup after, for every such name and length |
| `SetupResult.SetupLeaves` | Backend/provision/environment.go:82-121 | every variable's value after a setup, in the words of the file: production mode, secure cookies, the loopback address, no public bind, SQLite, the server name, the port, and the secrets kept or drawn |
| `SetupResult.SetupWrites` | Backend/provision/environment.go:296-356 | and five of them as lines of the written text |
| `SetupResult.PortsAreNumbers` | Backend/provision/environment.go:46-81 | a number is a valid port exactly from 1 to 65535 |
| `SetupResult.SetupRefuses` | Backend/provision/environment.go:275-294 | what a setup never goes through on: another server's file, another database, short secrets, keys of another length |

## Modelling decisions

- Time is a whole number of seconds, but for replay protection, where it counts ticks of any
  resolution and the window check rounds down to seconds. Each call reads the clock as a parameter.
- Cryptography is a record of functions with correctness equations only. Both sets of
  equations are shown to be consistent.
- A hash of a refresh token is a free constructor. The transcript's SHA-256 is an arbitrary
  function of fixed output length, so injectivity there is stated up to the hash.
- A refused Argon2 or bcrypt input is not modelled beyond what the verifier returns.
- A suspended channel carries who suspended it last, of which the program stores a sentence.
- The registry's callers may use or close any node directly at any time, which allows more
  runs than the handles do.
- Keys are written in any order, of which the sorted one is a case.
- The environment file is a text of characters; a value is any byte string, seen as
  characters and stray bytes. Stray bytes next to each other stay apart even where they would
  make up a character, so a hand-written `"\xc3\xa9"` is two of them here and one character in
  the program; what the program prints itself never has that form. Lower-casing and what counts as an address are parameters of
  setup; ASCII is lower-cased as usual and the loopback address is an address.

## Left out

- HTTP handlers, routing, cookies, logging, network sends and key discovery.
- The inside of Ed25519, X25519, ML-KEM, ML-DSA, AES-GCM, HKDF, Argon2, bcrypt and SHA-2: functions with equations.
- End-to-end delivery between two nodes: only the receiver's at-most-once and the sender's conservation are stated.
- Times compared as text inside the runs of queue, sessions, pairings and rate limits: there they are compared as numbers, which within one second can differ as `SqlTime.TextOrder` says. The replay table is handed times, not texts; how the driver stores those is not part of this model.
- SQLite busy retries: each statement or transaction is one atomic step.
- Seat limits in floating point: the ceilings are exact.
- Appeals.DeletionLeaves: the actions are listed and deleted in one step, and no delete fails.
- Workers of `ProcessFederationQueue` have no budget: the overlap theorem is about `StartWorker`.
- A completing statement that fails counts as one that never follows, outside the replay bounds.
- Closed handles and wiping of memory in the key bundle and the node bootstrap.
- `DeleteUserAccount` and the `created_at`, `updated_at` and `last_seen_at` columns.
- Request validation and path security of the embedded node, and a node whose creation fails.
- File permissions, atomic replacement and directories of the environment file.
- GSN, mailbox, presence, rooms, public channels, GaiaDrop and network health: create, read, update and delete only.
- The scripts, the desktop shell and the word list generator.
