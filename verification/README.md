# A verified model of the service's hard cores

Dafny models of the parts of this multi-tenant backend whose correctness is not visible from one
function: the outbox delivery protocol with its invite tokens, the grouped rate limiter, subject
erasure and privacy retention, and four smaller algorithms (the streaming export, audit metadata
validation, the signing key refresh, and organisation ownership).

Every operation is modelled in the source's terms. A database transaction, a script call and a
single Redis command are one atomic step each; a refusal inside a transaction undoes it. Operations
that change rows are methods of classes whose fields are the tables, and each is proved equal to a
function on table contents; the laws are then proved about these functions, over all inputs or over
all runs of a step relation in which any number of workers, clients or sessions interleave.

Clocks, random tokens, row identifiers, the broker, the message sink and storage are parameters.
Hashing and encryption are ideal: a digest determines its token, and a ciphertext either decrypts to
the token it was made from or not at all.

| files | content |
|---|---|
| `Common`, `Records`, `TextRules` | shared vocabulary, rows of the invite and outbox tables, the string rules of Python and of SQL |
| `OutboxRepository`, `Worker`, `Dispatcher`, `InviteTable`, `InviteService` | the operations of the delivery protocol |
| `DeliverySystem`, `DeliveryBounds`, `InviteTokens`, `LateSends`, `InviteAddresses` | the protocol as a whole: invariant, bounds, backoff, tokens, addresses |
| `DeliveryDecisions`, `EventTiming`, `InviteLifetimes` | the same operations told from the columns alone: what a worker decides, when events are due, stale and finished, how long a token lives |
| `RateLimit`, `RateWindows`, `RateLimitRaces` | the script, the fallback, their windows, and both under races |
| `ErasureTables`, `ErasureLaws`, `Erasure`, `ErasureOrder`, `ErasureGuarantees`, `ErasureOutcome`, `ErasurePreview`, `DeferredDeletions`, `Scrubbing` | subject erasure; `ErasureLaws` and `ErasureOutcome` tell it column by column |
| `BoundedPasses`, `Retention`, `RetentionPass` | privacy retention |
| `Json`, `JsonDecoding`, `ExportStream` | the streaming export |
| `AuditMetadata`, `JwksRefresh`, `Tenancy`, `TenancyInvariant`, `TenancyRules` | metadata validation, key refresh, memberships |

Some laws one would expect are false of the code in a corner. These are stated with the exact
condition under which they hold:

- A rate limit group that names one key twice can pass its limit (`RateLimit.WithinLimitsExactlyWhen`,
  `RateLimit.RepeatedKeyOvershoots`); under races the fallback passes it by up to the number of
  callers less one, and that bound is reached (`RateLimitRaces.OvershootReached`).
- A worker decides inside the claiming transaction and sends after it. A token whose invite is
  rotated, revoked, accepted, erased or expires in between is never chosen again, but it can still be
  sent: exactly by the workers that hold it at that moment, once each
  (`LateSends.EndedTokenSentExactlyByHolders`, with a run in `LateSends.RevokedTokenCanBeSent`).
- Closing a session ends an open transaction without a rollback event, so the deletion hook runs on
  rows that were never committed. Objects are deleted only once their rows are committed as
  cancelled exactly when no session is closed on deletions that still wait for their commit
  (`DeferredDeletions.AllCoveredExactlyWhen`, with a run in `DeferredDeletions.CloseDeletesUncommitted`).
- Rolling back any savepoint empties the whole queue of deferred object deletions, so a committed
  cancelled export can keep its object (`DeferredDeletions.SavepointRollbackKeepsObjects`); its row
  keeps the storage key for a later cleanup.
- An erasure finds addresses with SQL `trim`, which removes blanks only, while the provider compares
  with Python `strip`; and an invite that already carries a tombstone is left alone even when the
  tombstone is the subject's own address. `ErasureGuarantees.ProviderAddressLeftExactlyWhen` gives the
  exact condition for every invite, and `ErasureGuarantees.CompletedRunLeavesAddressExactlyWhen` for
  whole runs. The first case needs an address the services do not store
  (`InviteAddresses.QueriesFindEveryInvite`).
- The owner count in `create_membership` would let an owner into a deleted organisation; its callers
  prevent that (`TenancyInvariant.CreationSucceedsExactlyWhen`).
- `_last_forced_jwks_refresh_at` starts at 0.0 on a monotonic clock, so the first unknown key id is
  looked up exactly when the clock itself reads at least the cooldown
  (`JwksRefresh.FirstRefreshExactlyWhen`, with a refused start in `JwksRefresh.EarlyKeyMissIsRefused`).

## Model

| member | source | states |
|---|---|---|
| `OutboxRepository.OutboxEventRepository.ClaimDueEvents` | backend/app/outbox/repositories/outbox_events.py:79-105 | exactly pending events nobody holds whose wait is over become PROCESSING, all of them if the limit is not reached, and any old claim on them is gone |
| `OutboxRepository.OutboxEventRepository.ClaimProcessingEventForDelivery` | backend/app/outbox/repositories/outbox_events.py:107-145 | a claim is granted exactly when the event is in flight and unowned |
| `OutboxRepository.OutboxEventRepository.GetDeliveryClaimedEvent` | backend/app/outbox/repositories/outbox_events.py:147-163 | the event is found exactly under the token that owns it |
| `OutboxRepository.OutboxEventRepository.MarkProcessed` | backend/app/outbox/repositories/outbox_events.py:178-187 | the event ends, its claim goes, an invite payload loses address and ciphertext |
| `OutboxRepository.OutboxEventRepository.MarkFailedAttempt` | backend/app/outbox/repositories/outbox_events.py:189-204 | one more attempt counted: retry after 2^attempts seconds, or the end with a scrubbed payload |
| `OutboxRepository.OutboxEventRepository.ReleaseProcessingEventForRetry` | backend/app/outbox/repositories/outbox_events.py:206-211 | a failed attempt for an event in flight, nothing otherwise |
| `OutboxRepository.OutboxEventRepository.RecoverStaleProcessingEvents` | backend/app/outbox/repositories/outbox_events.py:213-236 | exactly events in flight locked longer ago than the timeout, all of them if the limit is not reached, each count a failed attempt and lose their owner |
| `Worker.GetClaimedEventContext` | backend/app/outbox/workers.py:28-94 | claim, decision and expiry marking in one transaction |
| `Worker.ApplyResult` | backend/app/outbox/workers.py:97-117 | a report under a token that no longer owns the event changes nothing |
| `Worker.ProcessOutboxEvent` | backend/app/outbox/workers.py:124-161 | a whole worker run from the claim to the report |
| `Dispatcher.ClaimAndEnqueueDueEvents` | backend/app/outbox/dispatcher.py:37-74 | every claimed event is with the broker or released, none twice |
| `Dispatcher.RecoverStale` | backend/app/outbox/dispatcher.py:17-34 | one recovery batch, which rows are in it, and its count |
| `OutboxRepository.ClaimTakes` | backend/app/outbox/repositories/outbox_events.py:79-105 | which rows a claim takes, by their columns, and when it takes all of them |
| `OutboxRepository.RecoveryTakes` | backend/app/outbox/repositories/outbox_events.py:213-236 | which rows a recovery takes, by their columns, and when it takes all of them |
| `InviteTable.InviteRepository.AcceptPendingInviteByTokenHash` | backend/app/invites/repositories/invites.py:102-117 | an invite is accepted exactly if a usable one carries the hash |
| `InviteTable.InviteRepository.RevokePendingInvite` | backend/app/invites/repositories/invites.py:136-159 | revokes pending invites of the organisation only |
| `InviteTable.InviteRepository.RotatePendingInviteToken` | backend/app/invites/repositories/invites.py:161-183 | rotates usable invites only |
| `InviteTable.InviteRepository.MarkPendingInviteExpiredById` | backend/app/invites/repositories/invites.py:185-201 | expires exactly a pending invite past its time |
| `InviteService.InviteService.CreateInvite` | backend/app/invites/services/invites.py:93-176 | succeeds exactly under the role rules, the quota and the two unique indexes; publishes the fresh token with the new row |
| `InviteService.InviteService.RevokeInvite` | backend/app/invites/services/invites.py:215-271 | succeeds exactly for a pending invite the actor may manage |
| `InviteService.InviteService.ResendInvite` | backend/app/invites/services/invites.py:273-379 | succeeds exactly for an invite usable at the second clock reading; rotates and publishes together |
| `DeliverySystem.StepMoves` | backend/app/outbox/repositories/outbox_events.py:79-236 | each of fifteen kinds of step moves one event along one of eight edges |
| `DeliverySystem.RunInv` | backend/app/outbox/repositories/outbox_events.py:79-236 | the protocol invariant holds after every run |
| `DeliverySystem.Reachable` | backend/app/outbox/repositories/outbox_events.py:79-145 | in every reachable state a claim exists only for an event in flight, locked_at is set exactly in flight, attempts stay below the maximum until the end |
| `DeliveryBounds.ClaimsBounded` | backend/app/outbox/repositories/outbox_events.py:107-145 | no run, however messages are lost, repeated or late, grants more claims for an event than its maximum of attempts |
| `DeliveryBounds.DeliveriesBounded` | backend/app/outbox/workers.py:124-161 | the sink is asked to deliver an event at most that often |
| `DeliveryBounds.TransitionsBounded` | backend/app/outbox/repositories/outbox_events.py:79-236 | at most three transitions per attempt over the life of an event |
| `DeliveryBounds.TerminalAbsorbing` | backend/app/outbox/repositories/outbox_events.py:178-204 | processed and failed events never leave their status |
| `DeliveryBounds.SupersededForever` | backend/app/outbox/repositories/outbox_events.py:147-163 | a worker that lost its claim never owns the event again |
| `DeliveryBounds.LateReportIsHarmless` | backend/app/outbox/workers.py:97-117 | whatever it reports later changes nothing |
| `DeliveryBounds.FailuresBackOff` | backend/app/outbox/repositories/outbox_events.py:189-204 | the k-th future failure is at least the sum of the waits away |
| `DeliveryBounds.BackoffBetweenFailures` | backend/app/outbox/repositories/outbox_events.py:189-204 | the k-th failure comes at least 2^k - 2 seconds after the first |
| `InviteTokens.OneEventPerLiveToken` | backend/app/invites/services/invites.py:336-379 | in every reachable state at most one event carries an invite's live token |
| `InviteTokens.DeadNeverChosen` | backend/app/outbox/workers.py:63-94 | a token that opens no usable invite is never chosen again |
| `InviteTokens.EndedTokenNeverChosen` | backend/app/invites/services/invites.py:336-379 | after rotation, revocation, acceptance, expiry or erasure no later worker is told to deliver the old token |
| `LateSends.SendersHeldIt` | backend/app/outbox/workers.py:124-161 | while a token is not chosen, it is sent only by workers that held it, once each |
| `LateSends.EndedTokenSentExactlyByHolders` | backend/app/outbox/workers.py:124-161 | an ended token can still be sent exactly when a worker holds it at that moment, and at most once by each |
| `LateSends.RevokedTokenCanBeSent` | backend/app/outbox/workers.py:63-94 | a run in which a token is sent after its invite was revoked |
| `InviteAddresses.QueriesFindEveryInvite` | backend/app/invites/services/invites.py:124-129 | in every reachable state a query for an address finds exactly the invites the services recognise by it |
| `DeliveryDecisions.ParsesExactly` | backend/app/outbox/schemas/payloads.py:12-26 | which payloads are accepted, field by field, and what is read from them |
| `DeliveryDecisions.DecidesExactly` | backend/app/outbox/workers.py:50-94 | the whole decision table: each decision, exactly when it is taken |
| `DeliveryDecisions.GrantDoes` | backend/app/outbox/workers.py:28-94 | what the claiming transaction skips, decides and writes, row by row |
| `DeliveryDecisions.DeliversExactlyWhen` | backend/app/outbox/workers.py:50-94 | the decision to deliver, by the columns of the event and of the invite |
| `DeliveryDecisions.FailuresAreNamed` | backend/app/outbox/workers.py:54-161 | the error recorded for each kind of failure |
| `DeliveryDecisions.PublishedPayload` | backend/app/invites/services/invites.py:370-378 | what a published payload holds, member by member, and that every worker accepts it |
| `DeliveryDecisions.PublishedTokensAreDelivered` | backend/app/invites/services/invites.py:336-379 | whatever happened since a create or a resend, a worker granted its event while the invite is live and answers to the token is told to deliver exactly that token |
| `EventTiming.RecoveredOnlyAfterTimeout` | backend/app/outbox/repositories/outbox_events.py:213-236 | over every run, a recovered event was in flight and last locked more than the timeout before |
| `EventTiming.AbandonedIsRecovered` | backend/app/outbox/repositories/outbox_events.py:213-236 | conversely, an event in flight whose last lock is that old is failed by a recovery that covers the backlog |
| `EventTiming.PromptWorkerOwns` | backend/app/outbox/repositories/outbox_events.py:107-163 | a worker that reports within the timeout of its grant still owns its event, whatever the others do |
| `EventTiming.FreshEventIsClaimed` | backend/app/outbox/repositories/outbox_events.py:79-105 | a freshly published event is taken by the next claim that covers the backlog |
| `EventTiming.FailedEventIsRetried` | backend/app/outbox/repositories/outbox_events.py:189-204 | a failed event is taken again exactly from 2^attempts seconds after its failure on |
| `EventTiming.FailureLeaves` | backend/app/outbox/repositories/outbox_events.py:189-204 | what a failed attempt leaves in every column |
| `EventTiming.FinishedEventsAreEmptied` | backend/app/outbox/repositories/outbox_events.py:178-204 | in every reachable state a finished invite event holds neither the address nor the ciphertext |
| `EventTiming.ScrubLosesOnlySecrets` | backend/app/outbox/repositories/outbox_events.py:178-187 | and it loses nothing else |
| `InviteLifetimes.InviteRowsExactly` | backend/app/invites/repositories/invites.py:102-201 | the row each invite transaction leaves, column by column |
| `InviteLifetimes.CompetingExactly` | backend/app/invites/services/invites.py:124-140 | which two invites compete for one address |
| `InviteLifetimes.TokensLiveSevenDays` | backend/app/invites/services/invites.py:336-379 | over every run, no worker is told to deliver a token seven days or more after it was drawn |
| `RateLimit.AtomicConsumeGroupedBuckets` | backend/app/core/rate_limit/grouped_atomic.py:224-252 | the script's verdict and keyspace |
| `RateLimit.CompatibilityConsumeGroupedBuckets` | backend/app/core/rate_limit/grouped_atomic.py:179-221 | the fallback's, run alone |
| `RateLimit.AllOrNothing` | backend/app/core/rate_limit/grouped_atomic.py:8-30 | every counter of the group goes up, with an expiry, or none does |
| `RateLimit.WithinLimitsExactlyWhen` | backend/app/core/rate_limit/grouped_atomic.py:8-30 | an allowed group stays within its limits exactly when each key has room for its repetitions |
| `RateLimit.DistinctStayWithinLimits` | backend/app/core/rate_limit/grouped_atomic.py:8-30 | so it does when the keys differ |
| `RateLimit.RepeatedKeyOvershoots` | backend/app/core/rate_limit/grouped_atomic.py:8-30 | and a concrete group with one key twice does not |
| `RateLimit.FallbackRefinesScript` | backend/app/core/rate_limit/grouped_atomic.py:179-221 | run alone, the fallback gives the script's verdict and counters, and its expiries except where one reads 0 |
| `RateWindows.AllowedExactlyWhen` | backend/app/core/rate_limit/grouped_atomic.py:8-30 | a group is allowed exactly when every counter in it is below its limit |
| `RateWindows.AllowedKeepsWindows` | backend/app/core/rate_limit/grouped_atomic.py:22-28 | on both paths a key counted for the first time, or without an expiry, gets its full window in milliseconds, and a running window is not prolonged |
| `RateWindows.AllowedCountsOnce` | backend/app/core/rate_limit/grouped_atomic.py:22-28 | a key named once has one hit more, other keys are left alone |
| `RateWindows.RefusedKeepsWindows` | backend/app/core/rate_limit/grouped_atomic.py:11-20 | a refusal keeps a running window, completes a missing one, and moves no counter |
| `RateWindows.WaitCoversWindow` | backend/app/core/rate_limit/grouped_atomic.py:202-210 | the reported wait is the least whole number of seconds, at least one, that covers what is left |
| `RateLimitRaces.AloneIsFallback` | backend/app/core/rate_limit/grouped_atomic.py:179-221 | the command-by-command machine, left alone, is the fallback |
| `RateLimitRaces.ScriptStoreIsScript` | backend/app/core/rate_limit/grouped_atomic.py:8-30 | the script call of the machine is the script |
| `RateLimitRaces.OvershootBounded` | backend/app/core/rate_limit/grouped_atomic.py:179-221 | with at most n callers in flight no counter passes limit + n - 1, mixed with script calls and expiring keys |
| `RateLimitRaces.OvershootReached` | backend/app/core/rate_limit/grouped_atomic.py:179-221 | a run that reaches this bound |
| `ErasureTables.ClearFields` | backend/app/privacy/erasures/remaining_inventory.py:744-763 | clearing fields one by one clears exactly them, and reports whether the row changed |
| `ErasureTables.UnlinkFields` | backend/app/privacy/erasures/remaining_inventory.py:690-697 | removes exactly the links to the subject, and reports whether there were any |
| `ErasureTables.AuditRowMeaning` | backend/app/privacy/erasures/audit.py:337-375 | an audit event keeps no link and no context, and loses nothing else |
| `ErasureTables.ExportRowMeaning` | backend/app/privacy/erasures/remaining_inventory.py:660-712 | an export keeps no link; a stored one made for the subject is cancelled and keeps its key |
| `ErasureTables.RequestRowMeaning` | backend/app/privacy/erasures/remaining_inventory.py:723-762 | a request keeps no link; details go only from requests by or about the subject |
| `ErasureTables.StaffRowMeaning` | backend/app/privacy/erasures/remaining_inventory.py:639-657 | the creator link and the reason go, the staff member's id stays |
| `ErasureTables.UserRowMeaning` | backend/app/privacy/erasures/user_profile.py:109-139 | the profile, field by field |
| `ErasureLaws.TargetsExactly` | backend/app/privacy/erasures/audit.py:146-256 | which rows an audit event can concern the subject through, by their columns |
| `ErasureLaws.AuditExactly` | backend/app/privacy/erasures/audit.py:272-321 | which audit events are selected, by their columns and those of the rows they point at |
| `ErasureLaws.EventsExactly` | backend/app/privacy/erasures/outbox.py:140-206 | which outbox events are selected, by the invite and by the address |
| `Erasure.RewriteRows` | backend/app/privacy/erasures/audit.py:96-105 | the provider loop rewrites every row as told and counts exactly those that changed |
| `Erasure.ErasureSession.MinimiseAuditEvents` | backend/app/privacy/erasures/audit.py:73-120 | the audit provider on its table: what is left of every row, column by column; or a refusal that changes nothing |
| `Erasure.ErasureSession.ScrubOutbox` | backend/app/privacy/erasures/outbox.py:64-120 | the outbox provider; rows in flight are refused |
| `Erasure.ErasureSession.AnonymiseInvites` | backend/app/privacy/erasures/invite.py:56-113 | the invite provider |
| `Erasure.ErasureSession.MinimisePlatformStaff` | backend/app/privacy/erasures/remaining_inventory.py:154-180 | the staff provider |
| `Erasure.ErasureSession.MinimiseExportArtifacts` | backend/app/privacy/erasures/remaining_inventory.py:183-225 | the export provider; exports in progress and unknown backends are refused |
| `Erasure.ErasureSession.MinimisePrivacyGovernance` | backend/app/privacy/erasures/remaining_inventory.py:228-282 | the governance provider and its three results |
| `Erasure.ErasureSession.AnonymiseUserProfile` | backend/app/privacy/erasures/user_profile.py:51-88 | the profile provider |
| `Erasure.ErasureSession.MinimiseRequests` | backend/app/privacy/erasures/remaining_inventory.py:285-311 | the request provider |
| `Erasure.ErasureSession.RunCoreProviders` | backend/app/privacy/erasures/orchestrator.py:281-362 | the ten providers in order, stopping at the first failure |
| `Erasure.ErasureSession.ExecuteCoreErasure` | backend/app/privacy/erasures/orchestrator.py:127-202 | checks, marking, savepoint, and the mark for how it ended |
| `ErasureOrder.OwnTableOnly` | backend/app/privacy/erasures/orchestrator.py:281-362 | after any providers it does not depend on, a provider still does what it would have done first |
| `ErasureOrder.RunsIndependently` | backend/app/privacy/erasures/orchestrator.py:281-362 | every safe order has the effect, failure and reports of independent rewrites of the original tables |
| `ErasureOrder.CodedOrderIsSafe` | backend/app/privacy/erasures/orchestrator.py:281-362 | the coded order is safe and complete |
| `ErasureOrder.CodedOrderIsIndependent` | backend/app/privacy/erasures/orchestrator.py:281-362 | so the coded run rewrites every table from its original content, or fails with the first complaint about the original database |
| `ErasureOrder.SafeOrdersAgree` | backend/app/privacy/erasures/orchestrator.py:281-362 | all safe orders complete together, with the same tables |
| `ErasureOrder.RequestsMustComeLast` | backend/app/privacy/erasures/remaining_inventory.py:723-762 | once requests are minimised, no provider that looks the subject up can run |
| `ErasureOrder.AuditMustComeFirst` | backend/app/privacy/erasures/audit.py:146-176 | invites, staff or exports before audit loses every audit event about a row known only through links they remove |
| `ErasureOrder.AuditMustPrecedeUsers` | backend/app/privacy/erasures/audit.py:179-194 | users before audit loses every audit event about an invite known only through the address |
| `ErasureGuarantees.CompletedRun` | backend/app/privacy/erasures/orchestrator.py:127-202 | a run completes exactly when no provider objects to the database as it was |
| `ErasureGuarantees.CompletedRunSilencesEvents` | backend/app/privacy/erasures/outbox.py:140-206 | every event about one of the subject's invites is finished and keeps only safe keys |
| `ErasureGuarantees.CompletedRunForgetsAddress` | backend/app/privacy/erasures/invite.py:133-183 | unless the subject's address is a tombstone, no invite stays under it, as queries compare addresses and, for stored addresses, as the provider does; no payload names it |
| `ErasureGuarantees.CompletedRunLeavesAddressExactlyWhen` | backend/app/privacy/erasures/invite.py:133-192 | which invites stay under the address as the provider compares it, read off the database before the run |
| `ErasureGuarantees.InviteAddressGoneExactlyWhen` | backend/app/privacy/erasures/invite.py:152-183 | exactly when an invite keeps the address it was found by |
| `ErasureGuarantees.ProviderAddressLeftExactlyWhen` | backend/app/privacy/erasures/invite.py:152-192 | the same as the provider compares addresses, over every invite |
| `ErasureGuarantees.StoredAddressesAreFound` | backend/app/privacy/erasures/invite.py:133-192 | on addresses in stored form both notions agree |
| `ErasureGuarantees.TombstoneAddressSurvives` | backend/app/privacy/erasures/invite.py:152-183 | the corner in which it does |
| `ErasureGuarantees.TabbedAddressIsMissed` | backend/app/privacy/erasures/invite.py:133-192 | an input for the case in which the query does not find the row |
| `ErasureGuarantees.ScrubbedEventMeaning` | backend/app/privacy/erasures/outbox.py:173-206 | an erased event keeps only safe keys and is never delivered |
| `ErasureGuarantees.FailsExactlyWhen` | backend/app/privacy/erasures/orchestrator.py:155-192 | exactly when a run fails and with which reason; everything but the execution fields of its request is as before |
| `ErasureGuarantees.RerunChangesNothing` | backend/app/privacy/erasures/orchestrator.py:142-151 | repeating a completed run is recognised and changes nothing |
| `ErasureOutcome.EndsExactly` | backend/app/privacy/erasures/orchestrator.py:127-202 | how every run ends: each refusal, each failure with its reason, and completion, exactly when, read off the database before the run |
| `ErasureOutcome.CompletedRunUnlinks` | backend/app/privacy/erasures/orchestrator.py:127-202 | a completed erasure leaves no covered link in audit events, exports, requests, staff rows and invites, and no address in the profile; columns and target types are named |
| `ErasureOutcome.CompletedAudit` | backend/app/privacy/erasures/audit.py:337-375 | over a completed run, every audit event: what concerned the subject loses link and context, the rest is untouched |
| `ErasureOutcome.CompletedExport` | backend/app/privacy/erasures/remaining_inventory.py:660-712 | every export, column by column |
| `ErasureOutcome.CompletedRequest` | backend/app/privacy/erasures/remaining_inventory.py:723-762 | every request, column by column, and the marks of the one carried out |
| `ErasureOutcome.CompletedStaff` | backend/app/privacy/erasures/remaining_inventory.py:639-657 | every staff row |
| `ErasureOutcome.CompletedUser` | backend/app/privacy/erasures/user_profile.py:109-139 | every profile |
| `ErasureOutcome.CompletedGovernance` | backend/app/privacy/erasures/remaining_inventory.py:228-282 | authorisations and notices lose their source; memberships and consents stay |
| `ErasureOutcome.CompletedInvite` | backend/app/privacy/erasures/invite.py:133-192 | every invite: tombstone, hash, expiry, status and revoker |
| `ErasureOutcome.CompletedEvent` | backend/app/privacy/erasures/outbox.py:140-206 | every outbox event: kept members, marks, status and error |
| `ErasureOutcome.CompletedReports` | backend/app/privacy/erasures/orchestrator.py:281-362 | the results of a completed run: order, keys, decisions, and the numbers of rows that changed |
| `ErasurePreview.PreviewBoundsErasure` | backend/app/privacy/erasures/impact.py:148-193 | every reported count of a completed erasure is at most what the preview announced under its key |
| `ErasurePreview.ChangedWithinSelected` | backend/app/privacy/erasures/impact.py:235-283 | only selected rows change |
| `ErasurePreview.EstimatesExactly` | backend/app/privacy/erasures/impact.py:148-193 | under each key, the number of rows that concern the subject, by their columns |
| `DeferredDeletions.SessionHooks.DeferExportArtifactObjectDeletions` | backend/app/privacy/erasures/remaining_inventory.py:520-547 | deletions are queued, hooks installed once |
| `DeferredDeletions.SessionHooks.AfterTransactionEnd` | backend/app/privacy/erasures/remaining_inventory.py:550-572 | the end of the root transaction empties the queue into storage, skipping what storage refuses |
| `DeferredDeletions.SessionHooks.AfterRollback` | backend/app/privacy/erasures/remaining_inventory.py:575-584 | any rollback empties the queue |
| `DeferredDeletions.DeletionsExactly` | backend/app/privacy/erasures/remaining_inventory.py:496-517 | one deletion for each export made for the subject that still has an object |
| `DeferredDeletions.DeletedOnlyAtRootEnd` | backend/app/privacy/erasures/remaining_inventory.py:479-584 | over every run an object goes only at a commit of the root or a close, and a commit commits its row as cancelled |
| `DeferredDeletions.CoveredExactlyWhen` | backend/app/privacy/erasures/remaining_inventory.py:550-572 | a root end removes only what is then committed as cancelled exactly when it is no close, or all it finds queued was committed as cancelled before |
| `DeferredDeletions.AllCoveredExactlyWhen` | backend/app/privacy/erasures/remaining_inventory.py:479-584 | the same for whole runs |
| `DeferredDeletions.WithoutCloseAllCovered` | backend/app/privacy/erasures/remaining_inventory.py:479-584 | so it holds in every run of begins, commits and rollbacks |
| `DeferredDeletions.CloseDeletesUncommitted` | backend/app/privacy/erasures/remaining_inventory.py:550-572 | a run in which a close deletes an object whose row was not committed |
| `DeferredDeletions.QueueIsWhatSurvived` | backend/app/privacy/erasures/remaining_inventory.py:550-584 | the queue is what was queued since the last rollback of any level, commit or close |
| `DeferredDeletions.RootEndDeletesExactly` | backend/app/privacy/erasures/remaining_inventory.py:550-572 | exactly which objects each end of the root deletes |
| `DeferredDeletions.SavepointRollbackKeepsObjects` | backend/app/privacy/erasures/remaining_inventory.py:579-584 | a run that commits a cancelled row and keeps its object |
| `BoundedPasses.Pass` | backend/app/privacy/maintenance.py:336-352 | one pass treats and counts a full page; a dry run reports the same count and changes nothing |
| `BoundedPasses.SeriesLeaves` | backend/app/privacy/maintenance.py:336-446 | what is left after any number of passes, and that the counts add up to the rest |
| `BoundedPasses.BacklogDrains` | backend/app/privacy/maintenance.py:336-446 | n rows take exactly ceil(n / limit) passes, and the counts sum to n |
| `Retention.RetentionSession.AnonymiseRetainedInvites` | backend/app/privacy/maintenance.py:336-428 | the invite step: which rows it takes, by their columns, and what it makes of them |
| `Retention.RetentionSession.ScrubRetainedOutboxEvents` | backend/app/privacy/maintenance.py:429-528 | the outbox step, likewise |
| `Retention.RetentionSession.AnonymiseCompletedInvitesOlderThan` | backend/app/invites/repositories/invites.py:203-262 | the batch job over completed invites |
| `Retention.InviteBacklogDrains` | backend/app/privacy/maintenance.py:336-428 | the drain law for invites |
| `Retention.EventBacklogDrains` | backend/app/privacy/maintenance.py:429-528 | the drain law for events |
| `Retention.CompletedInviteBacklogDrains` | backend/app/invites/repositories/invites.py:203-262 | the drain law for the batch job |
| `Retention.RetentionKeepsOutcomes` | backend/app/privacy/maintenance.py:355-528 | only finished rows are due, and no status changes |
| `Retention.RetainedInviteExactly` | backend/app/privacy/maintenance.py:422-428 | what is left of a retained invite, column by column |
| `Retention.RetainedEventExactly` | backend/app/privacy/maintenance.py:511-528 | what is left of a retained event, member by member |
| `RetentionPass.RetentionRunner.RunPrivacyRetentionPass` | backend/app/privacy/maintenance.py:106-217 | the actions and the result of a pass, and of a dry run |
| `RetentionPass.RetentionRunner.CountExpiredReadyArtifacts` | backend/app/privacy/services/export_artifacts.py:1049-1088 | the dry run's count of exports is what the four listings hold, up to the limit |
| `RetentionPass.DryRunBoundsPass` | backend/app/privacy/maintenance.py:119-128 | a dry run announces what the database steps change, and at least the exports the pass reports |
| `RetentionPass.DryRunIsExact` | backend/app/privacy/maintenance.py:119-128 | and exactly these when nothing is refused, lost or counted twice |
| `RetentionPass.ReportsAtMostLimit` | backend/app/privacy/maintenance.py:106-217 | at most limit exports over all phases |
| `RetentionPass.DeletesAtMostThreePages` | backend/app/privacy/maintenance.py:106-217 | at most three times limit deletions |
| `RetentionPass.PassFollowsOrder` | backend/app/privacy/maintenance.py:106-217 | objects go outside transactions, from committed listings; metadata is cleared only for objects really deleted |
| `RetentionPass.RaisesExactlyWhen` | backend/app/privacy/maintenance.py:213-217 | a pass raises exactly when it changed nothing and storage refused something |
| `RetentionPass.RaisesFromBacklogs` | backend/app/privacy/maintenance.py:213-217 | the same, read off the backlogs the pass meets |
| `Json.ChunksEncode` | backend/app/privacy/exporters/subject_data_stream.py:23-24 | the encoder's chunks make up the encoding |
| `JsonDecoding.ReadEncoded` | backend/app/privacy/exporters/subject_data_stream.py:19-24 | reading an encoded value gives it back, with the text after it |
| `JsonDecoding.EncodeInjective` | backend/app/privacy/exporters/subject_data_stream.py:19-24 | different values have different texts |
| `JsonDecoding.NoObjectIsAPrefix` | backend/app/privacy/exporters/subject_data_stream.py:23-24 | no object's text begins another's |
| `ExportStream.IterSubjectExportChunks` | backend/app/privacy/exporters/subject_data_stream.py:27-117 | the chunks make up the encoding of the whole document, which tells everything under its name, or stop at the failing provider |
| `ExportStream.FinishedStreamReadsBack` | backend/app/privacy/exporters/subject_data_stream.py:51-117 | a finished stream reads back as the document |
| `ExportStream.FinishedStreamTells` | backend/app/privacy/exporters/subject_data_stream.py:51-117 | reading the stream back gives, under each name, the header, every record of every provider, both counts, the keys in order and one notice per redacted record |
| `ExportStream.CutStreamIsNoObject` | backend/app/privacy/exporters/subject_data_stream.py:51-117 | a stream cut short is the text of no object |
| `ExportStream.RecordCountIsTotal` | backend/app/privacy/exporters/subject_data_stream.py:51-117 | the manifest counts the records of all providers |
| `ExportStream.OneNoticePerRedactedRecord` | backend/app/privacy/exporters/subject_data_stream.py:51-117 | one notice for each record with redacted fields |
| `ExportStream.EveryRedactedRecordIsNoticed` | backend/app/privacy/exporters/subject_data_stream.py:51-117 | and it is that record's notice |
| `AuditMetadata.ValidateNoForbiddenMetadataKeys` | backend/app/audit/services/audit_events.py:149-173 | the stack search accepts exactly the values without a forbidden key, and ends |
| `AuditMetadata.CleanByPaths` | backend/app/audit/services/audit_events.py:149-173 | that is, no key on any path is forbidden |
| `AuditMetadata.ForbiddenExactly` | backend/app/audit/services/audit_events.py:157-170 | which keys are forbidden, letter by letter: case is ignored and dashes read as underscores |
| `AuditMetadata.DepthIsLongestNesting` | backend/app/audit/services/audit_events.py:138-147 | the depth limit is exactly a limit on containers along every path |
| `AuditMetadata.ValidateMetadata` | backend/app/audit/services/audit_events.py:122-136 | what passes the whole check |
| `JwksRefresh.JwtValidator.RecheckUnderLock` | backend/app/core/auth_jwt.py:141-146 | the second check, and the mark set before the fetch |
| `JwksRefresh.JwtValidator.FinishRefresh` | backend/app/core/auth_jwt.py:147-152 | every way out of the fetch releases the lock; fetched keys are cached and returned, otherwise the cache answers |
| `JwksRefresh.LockIsReleasedOnEveryPath` | backend/app/core/auth_jwt.py:127-152 | at most one validation inside; the lock is free exactly when all are out |
| `JwksRefresh.CacheIsLastFetched` | backend/app/core/auth_jwt.py:112-125 | in every run the cache holds what the last successful fetch brought |
| `JwksRefresh.AnswersExactly` | backend/app/core/auth_jwt.py:127-152 | a validation answers with the keys of its own fetch, or with the cache as it is then |
| `JwksRefresh.ForcedRefreshesAreSpaced` | backend/app/core/auth_jwt.py:127-152 | forced refreshes are at least the cooldown apart in every run |
| `JwksRefresh.KeyMissForcesExactlyWhen` | backend/app/core/auth_jwt.py:127-152 | a key miss that finds the lock free goes to the provider exactly when the cooldown is over, and is answered from the cache otherwise |
| `JwksRefresh.FirstRefreshExactlyWhen` | backend/app/core/auth_jwt.py:43 | the first one exactly when the clock reads at least the cooldown |
| `JwksRefresh.EarlyKeyMissIsRefused` | backend/app/core/auth_jwt.py:127-131 | a start that is refused |
| `JwksRefresh.RefreshesPerInterval` | backend/app/core/auth_jwt.py:127-152 | at most 1 + floor(T / cooldown) of them in any interval of length T |
| `JwksRefresh.EverySlotCanBeUsed` | backend/app/core/auth_jwt.py:127-152 | and runs exist that refresh once per cooldown, exactly |
| `Tenancy.TenancySession.CreateMembership` | backend/app/memberships/services/memberships.py:70-98 | check, unique indexes, owner count |
| `Tenancy.TenancySession.ChangeMembershipRole` | backend/app/memberships/services/memberships.py:133-184 | the role change and each of its refusals |
| `Tenancy.TenancySession.RemoveMembership` | backend/app/memberships/services/memberships.py:219-271 | the removal and each of its refusals |
| `Tenancy.TenancySession.ReplaceOwnerMembership` | backend/app/memberships/services/memberships.py:370-395 | the replacement never meets the owner index, and its final count never fails |
| `Tenancy.TenancySession.SoftDelete` | backend/app/organisations/services/organisations.py:224-271 | the deletion and each of its refusals |
| `Tenancy.TenancySession.CreateOrganisationForCurrentUser` | backend/app/organisations/services/onboarding.py:22-47 | onboarding as one transaction |
| `Tenancy.TenancySession.AcceptInvite` | backend/app/invites/services/invites.py:178-213 | acceptance as one transaction; a refusal leaves the invite pending |
| `TenancyInvariant.StepKeepsInv` | backend/app/memberships/services/memberships.py:397-402 | every transaction keeps the ownership invariant, whatever its outcome |
| `TenancyInvariant.RunKeepsInv` | backend/app/memberships/services/memberships.py:397-402 | after every run: one owner per live organisation, one membership per user, none in a deleted organisation |
| `TenancyInvariant.AcceptanceAddsOneMembership` | backend/app/invites/services/invites.py:178-213 | an acceptance adds exactly one membership, in the invite's organisation and role |
| `TenancyInvariant.AcceptedAtMostOnce` | backend/app/invites/services/invites.py:178-213 | no run accepts an invite twice |
| `TenancyInvariant.MembershipsAreConserved` | backend/app/memberships/services/memberships.py:70-98 | memberships appear only through acceptances and onboardings, one each |
| `TenancyInvariant.CreationSucceedsExactlyWhen` | backend/app/memberships/services/memberships.py:70-98 | what the checks of a creation amount to |
| `TenancyInvariant.PromotingFirstMeetsIndex` | backend/app/memberships/services/memberships.py:390-394 | the order of the two updates is the only one the index allows |
| `TenancyRules.AcceptanceExactly` | backend/app/invites/services/invites.py:178-213 | a token is accepted exactly when it opens a live invite for the caller's own verified address, and the caller and the organisation are free and open for it |
| `TenancyRules.OnboardingExactly` | backend/app/organisations/services/onboarding.py:22-47 | an organisation is founded exactly when these checks hold; which rows it adds |
| `TenancyRules.RoleChangeExactly` | backend/app/memberships/services/memberships.py:133-184 | who changes which role to what |
| `TenancyRules.RemovalExactly` | backend/app/memberships/services/memberships.py:219-271 | who removes whom |
| `TenancyRules.ReplacementExactly` | backend/app/memberships/services/memberships.py:370-395 | which member can replace an owner, and what both become |
| `TenancyRules.DeletionExactly` | backend/app/organisations/services/organisations.py:224-271 | who deletes an organisation, and what becomes of its members |
| `TextRules.StripExactly` | backend/app/invites/services/invites.py:124-129 | `strip` takes off the white space at both ends and nothing else |
| `TextRules.LowerExactly` | backend/app/invites/services/invites.py:124-129 | two texts have one lower form exactly when they differ in the case of letters only |
| `Scrubbing.TombstonesDiffer` | backend/app/invites/anonymisation.py:11-12 | no two invites get the same tombstone |

## Left out

- The order of rows: queries with a limit return any page of matching rows, and updates of several rows happen in any order.
- Races inside one transaction: transactions are atomic, so lost updates from reads without a row lock (`get_by_id`, `get_delivery_claimed_event`) are not modelled.
- `updated_at` is set where the source sets it, not by the column's on-update rule.
- The syntax check of e-mail addresses in delivery payloads, and case and white space outside ASCII.
- JSON numbers with fractions and Redis values of the wrong type.
- Bucket windows below one second, which `dependencies.py` never passes.
- The endless dispatcher loop: its two ticks are modelled, their timing is not.
- Broker, sink, clock, hashing, encryption, storage and row identifiers are parameters or ideal, as said above.
- The order and the names of `changed_fields` in provider results; the counts and decisions are modelled.
- Reason codes are symbols; their cut to 64 characters never applies, as all of them are shorter.
- Consent records and organisations are only read by erasure; the model counts them in the preview.
- A JSON text that SQL reads as true without being `true` in Python would make the retention query and the retention predicate differ; payload marks are written by the service itself.
- The audit and idempotency steps of retention are two more instances of the drain law and are left out.
- The export artifact service, but for the dry run's count, its storage adapters and the subject data providers are taken by contract.
- `mark_processing` and `transfer_membership`, which none of the modelled flows calls.
- The profile columns of users in onboarding and acceptance, and the audit events all services write.
- Listings, permissions on reads, HTTP routing, schemas, logging, metrics and settings.
- Key lookup by key id and the claim checks of `JwtValidator`: they only read.
- RetentionPass.RaisesExactlyWhen: names the first refused object as the failure, not the exception it carries.
