# Verified model of the network-management platform's state machines

This project models the parts of the platform whose correctness spans several operations, and
proves what every run of them keeps. `dafny verify dfyconfig.toml` checks all of it.

| Component | Specification, and runs of it | Code in the source's own form |
|---|---|---|
| Transactional outbox with leases | `Outbox`, `OutboxRuns`, `OutboxLaws` | class `OutboxStore` |
| Inventory store | `InventoryDomain`, `Inventory`, `InventoryRuns`, `InventoryLaws` | class `InventoryStore` |
| Sessions and refresh-token families | `AccessToken`, `Sessions`, `SessionRuns`, `SessionLaws` | class `AuthService` |
| Audit hash chain | `Redaction`, `RedactionLaws`, `AuditChain`, `AuditProtocol`, `AuditLaws` | class `AuditStore`, methods `RedactJson`, `RedactObject`, `RedactArray` |
| Credential vault | `Vault`, `VaultStores`, `VaultRuns`, `VaultLaws` | classes `KeyRing`, `CredentialVaultStore` |
| Roadmap dependency check | `Roadmap` | method `BuildGraph`, class `CycleCheck` |
| One-time codes | `Totp` | method `VerifyCode` |
| Address management | `Ipam` | - |

## How to read it

- A table is a map or sequence, a transaction is one function on the tables, and a run is a fold of
  such steps over an arbitrary sequence of actions. The class methods perform the same statements in
  the source's order and are proved equal to these functions, including on every error path, where
  the tables must be unchanged.
- The `Runs` modules prove what every run keeps. The `Laws` modules say what each single call answers
  and leaves behind, column by column, in terms of its input.
- Clocks are parameters, in microseconds. An outbox run only moves its clock forward; elsewhere the
  times of a run are arbitrary. Sessions have two clocks, the service's and the database's, which
  need not agree. An observation without a time takes the time of the call; a service clock that
  differs from the database's there is an observation that carries its time. Random values (identifiers, token
  hashes, keys, nonces) are parameters; where a proof needs them new, it says so.
- Hashing, encryption, the printing of identifiers and the JSON codec are function parameters with
  named hypotheses: `AuditProtocol.Reprints` (of the drafts a run inserts only: decoding a printed
  event and printing it again gives the same bytes), `AuditProtocol.CollisionFree`
  and `Vault.HashSeparates` (no collision among the finitely many texts at hand),
  `AuditProtocol.OpensWithIdentifier` (how a printed event starts), `Vault.CipherSound`,
  `VaultRuns.UuidsPrint`.
- History variables record what no table holds: the handles ever issued and those still in a
  worker's hands (outbox), the observation times and the initial host name (inventory), the last
  secret written (vault), the order of entry into `visited` (roadmap).
- `SKIP LOCKED` is the parameter `locked`: rows that another transaction happens to hold. A rotation
  that commits while `revoke_family` runs is the parameter `unseen`: token rows its statement did not
  see. Revocation is therefore stated through the session row, which every refresh reads.
- The audit protocol alone is split below the transaction, into lock, read, insert and commit steps
  that interleave freely, with lock keys that may collide.

## Findings

- **A superseded outbox handle can be accepted.** The updates look at the lease owner only. When one
  worker identifier claims an event again after its lease ran out, the older handle still resolves
  it (`OutboxRuns.SupersededAccepted`). `OutboxRuns.AcceptedIffOwner` gives the exact condition and
  `OutboxRuns.SupersededRefused` the discipline under which it cannot happen.
- **Vault creation binds the raw kind and stores the trimmed one.** A profile created with white space
  around its kind cannot be resolved (`VaultRuns.TrailingSpaceLocksOut`; exact condition in
  `VaultRuns.CreateResolvesIff`) until its secret is replaced (`VaultRuns.LockedOutUntilReplaced`),
  and the same mismatch stops its rotation (`VaultRuns.RotateOutcome`).
- **Host-name normalization is not idempotent** when white space precedes the trailing dots
  (`InventoryDomain.NormalizeTwiceDiffers`; exact condition in
  `InventoryDomain.NormalizeIdempotentIff`). The store is unaffected, because it always normalizes the
  stored value, not the normal form.
- **A rotation can be refused at the expiry boundary.** The service compares the expiry with its own
  clock, the row's check with the database's. When the database's has reached an expiry the service's
  has not, the call ends in `Unavailable` and nothing is revoked (`SessionRuns.RefusedAtExpiry`; exact
  condition in `SessionRuns.ConstraintsRejectIff`).
- **Two first reports of one device can collide.** If both look up before either writes, the second
  ends in a duplicate identifier (`InventoryRuns.RacingFirstReports`; exact condition in
  `InventoryRuns.DuplicateIffTakenBetween`); made again, it updates the device.

## Model

| member | source | states |
|---|---|---|
| Outbox.OutboxStore.Claim | crates/platform-events/src/lib.rs:86-128 | the claim leases the first `batch` (clamped to 1..250) eligible unlocked rows, counts an attempt on each and returns exactly their handles; an invalid claim changes nothing |
| Outbox.PickFirstInOrder | crates/platform-events/src/lib.rs:103-107 | the picked set is a prefix of the (available_at, occurred_at, id) order, as large as the limit and the candidates allow |
| Outbox.OutboxStore.MarkPublished | crates/platform-events/src/lib.rs:130-164 | publishes and logs when the worker owns the lease and the row is pending; otherwise `LeaseLost`, and a duplicate log row rolls back |
| Outbox.OutboxStore.MarkFailed | crates/platform-events/src/lib.rs:166-240 | retry below the attempt limit, dead letter from it on, with the log row; no status is looked at; every failure leaves both tables alone |
| Outbox.OutboxStore.Deliver | crates/platform-events/src/lib.rs:365-391 | one delivery records success or failure, the latter with the delay of its attempt |
| Outbox.OutboxStore.DispatchOnce | crates/platform-events/src/lib.rs:346-397 | after a round in which no other worker acts, and every delivery has its own later time, each claimed event is published, scheduled or dead-lettered with one log row, except failures without an error code, which stay leased and make the round fail |
| Outbox.OutboxStore.DeliverAll | crates/platform-events/src/lib.rs:351-396 | the claimed events are settled one by one, in any order and each at its own time, to the same tables |
| Outbox.SettleOne | crates/platform-events/src/lib.rs:365-391 | delivering one event settles exactly that event and leaves the rest of the round as it was |
| OutboxRuns.StepKeeps | crates/platform-events/src/lib.rs:86-240 | claim, publish, fail, crash, enqueue and the passing of time keep the invariant linking lease, status, attempts, handles and log |
| OutboxRuns.Reachable | crates/platform-events/src/lib.rs:97-232 | the invariant holds after every interleaving of any number of workers: dates agree with status, and an event has a terminal log row exactly when it is terminal, of the matching kind, never two |
| OutboxRuns.LeaseImpliesPending | crates/platform-events/src/lib.rs:179-216 | in every reachable state a held lease means status pending, so the failure update needs no status condition |
| OutboxRuns.TerminalAbsorbing | crates/platform-events/src/lib.rs:97-101 | a published or dead-lettered event never changes again and gets no further log row |
| OutboxRuns.HeldHandleHasNoRow | migrations/0004_outbox_delivery.sql:31 | the unique constraint on (event, attempt) never refuses a held handle |
| OutboxRuns.AttemptsCountClaims | crates/platform-events/src/lib.rs:112 | an event's attempt counter is the number of claims that returned it |
| OutboxRuns.AttemptLimit | crates/platform-events/src/lib.rs:179-231 | with one limit for all workers an event has at most limit - 1 retry rows, and a dead-lettered one was claimed at least limit times, crashes included |
| OutboxRuns.LeaseIsExclusive | crates/platform-events/src/lib.rs:99-102 | until a lease expires or its owner resolves it, no run of other actions changes the row |
| OutboxRuns.ConcurrentClaimsDisjoint | crates/platform-events/src/lib.rs:102-107 | two claims share no event, and a claim takes the first unlocked rows in order |
| OutboxRuns.SupersededRefused | crates/platform-events/src/lib.rs:135-149 | if no worker ever holds two handles on one event, every superseded handle gets `LeaseLost` |
| OutboxRuns.AcceptedIffOwner | crates/platform-events/src/lib.rs:141-216 | a held handle is accepted exactly when its worker owns the lease, and then that worker holds or held the newest claim |
| OutboxRuns.SupersededAccepted | crates/platform-events/src/lib.rs:135-149 | a concrete run in which a superseded handle publishes |
| OutboxRuns.DelayIsDifference | crates/platform-events/src/lib.rs:400-403 | each retry delay lies in 1..60 and is the difference of the totals 2^k - 1 up to k = 6 and 63 + 60(k - 6) beyond |
| OutboxRuns.AlwaysFailing | crates/platform-events/src/lib.rs:166-232 | in every interleaving with other events and workers, an event whose claims all end in failure is dead-lettered by exactly its limit-th claim; its log is exactly one retry for each earlier claim and then the dead letter; each retry falls due its own delay after the failure; no claim comes before the delays so far have passed |
| OutboxRuns.PromptDeadLetter | crates/platform-events/src/lib.rs:400-403 | for every limit there is such a run that dead-letters the event exactly when the delays add up, so that bound is exact |
| OutboxLaws.ClaimGrants | crates/platform-events/src/lib.rs:95-111 | every handle is for a due, unlocked row that nobody held, and its row is leased for the seconds asked for (1 to 300), one attempt on, pending, all else kept |
| OutboxLaws.ClaimLeavesOthers | crates/platform-events/src/lib.rs:97-120 | rows without a handle, and the log, stay as they were |
| OutboxLaws.ClaimPassesOver | crates/platform-events/src/lib.rs:99-107 | a due, free row is passed over only when the batch (at most 250) is full, and then every row taken comes before it in (available_at, occurred_at, id) order |
| OutboxLaws.ClaimWithinBatch | crates/platform-events/src/lib.rs:122 | a claim returns at most the batch, and at most 250 handles |
| OutboxLaws.ClaimNeeds | crates/platform-events/src/lib.rs:92-94 | a claim without a named worker or a positive batch does nothing |
| OutboxLaws.LeaseLasts | crates/platform-events/src/lib.rs:95-111 | from a claim until its lease length has passed, no run without a resolution by that worker changes the row or issues another handle on it |
| OutboxLaws.LeaseEnds | crates/platform-events/src/lib.rs:99-101 | a row still as the claim left it can be claimed exactly from one microsecond after the lease on |
| OutboxLaws.PublishOutcome | crates/platform-events/src/lib.rs:130-164 | publishing succeeds exactly for the owner of a pending, unlogged attempt, and sets exactly these columns and this log row |
| OutboxLaws.FailOutcome | crates/platform-events/src/lib.rs:166-240 | a failure succeeds exactly for the owner of an unlogged attempt, and leaves a retry due after the seconds given (1 to 3600) or, from the limit on, a dead letter, with error, time and log row |
| OutboxLaws.FailedDeliveryWaits | crates/platform-events/src/lib.rs:373-391 | a failed delivery below the limit is due again after its attempt's share of the total delay |
| OutboxLaws.DeliveryPublishes | crates/platform-events/src/lib.rs:368-372 | a successful delivery publishes the event at its time |
| OutboxLaws.NewEventIsDue | crates/platform-events/src/lib.rs:60-84 | an enqueued event is due at once, unattempted and undated, and nothing else changes |
| OutboxLaws.RoundHoldsThirtySeconds | crates/platform-events/src/lib.rs:340-351 | a dispatcher's round leases its events for thirty seconds |
| InventoryDomain.ReactivationIsReviewed | crates/domain/src/inventory.rs:25-49 | every path of the transition table from retired to managed passes pending review |
| InventoryDomain.ManagementIsDecided | crates/domain/src/inventory.rs:25-49 | every path from discovered to managed passes pending review or unmanaged |
| InventoryDomain.ArchivedIsFinal | crates/domain/src/inventory.rs:25-49 | nothing follows archived on a path |
| InventoryDomain.NormalizeStored | crates/domain/src/inventory.rs:159-179 | the trimmed value that is stored normalizes as the reported one |
| InventoryDomain.NamespaceStored | crates/inventory-store/src/lib.rs:1028-1040 | the trimmed source that is stored gives the same namespace |
| InventoryDomain.NormalizeIdempotentIff | crates/domain/src/inventory.rs:159-179 | normalizing twice equals normalizing once exactly when the value is not a host name with white space before its trailing dots |
| InventoryDomain.NormalizeTwiceDiffers | crates/domain/src/inventory.rs:159-179 | the host name "h ." normalizes to "h ", which normalizes to "h" |
| InventoryDomain.NormalForm | crates/domain/src/inventory.rs:159-179 | the normal form by kind, and absent exactly when nothing identifying is left |
| InventoryDomain.HexDigitsConcat | crates/domain/src/inventory.rs:163-166 | hex digits are picked piece by piece, in order |
| InventoryDomain.HexDigitsChar | crates/domain/src/inventory.rs:163-166 | which single characters are picked |
| InventoryDomain.TrimDotsOnce | crates/domain/src/inventory.rs:171 | trailing dots are dropped, all of them, and nothing else |
| InventoryDomain.ColonNotation | crates/domain/src/inventory.rs:298-305 | a hardware address in colon notation has its plain normal form |
| InventoryDomain.DashNotation | crates/domain/src/inventory.rs:306-309 | and in dash notation the same |
| InventoryDomain.RootDot | crates/domain/src/inventory.rs:310-315 | the root dot of a host name and its case do not matter |
| InventoryDomain.StrongKinds | crates/domain/src/inventory.rs:150-157 | every kind is strong except host name and asset tag |
| InventoryDomain.NamespaceOf | crates/inventory-store/src/lib.rs:1028-1040 | only provider-native identifiers live in their provider's namespace, which must not be blank |
| InventoryStores.InventoryStore.CreateManual | crates/inventory-store/src/lib.rs:130-234 | inserts device, identifiers, declared facts, first log entry, audit and outbox row together, or changes nothing |
| InventoryStores.InventoryStore.UpdateMetadata | crates/inventory-store/src/lib.rs:236-363 | patches row and declared facts under the expected version and an allowed lifecycle, or changes nothing |
| InventoryStores.InventoryStore.TransitionLifecycle | crates/inventory-store/src/lib.rs:365-468 | moves along the transition table with its dates and reason; the same state is a no-op; errors change nothing |
| InventoryStores.InventoryStore.ReconcileObservation | crates/inventory-store/src/lib.rs:470-659 | looks up every strong identifier and then refuses, updates or creates in one transaction |
| InventoryStores.InventoryStore.Settle | crates/inventory-store/src/lib.rs:507-659 | what follows the lookups, for any set of devices they may have seen |
| InventoryStores.InventoryStore.FindMatches | crates/inventory-store/src/lib.rs:478-506 | the lookup loop collects exactly the owners of the observation's strong keys |
| InventoryStores.InventoryStore.Refresh | crates/inventory-store/src/lib.rs:514-574 | the branch for a known device |
| InventoryStores.InventoryStore.Discover | crates/inventory-store/src/lib.rs:576-659 | the branch for an unknown device |
| InventoryStores.UpsertEach | crates/inventory-store/src/lib.rs:963-1026 | the loop of upserts equals the fold of single upserts, stopping at the first error |
| InventoryStores.PersistTexts | crates/inventory-store/src/lib.rs:1042-1172 | upserting field by field overrides exactly the given facts |
| InventoryStores.PersistReported | crates/inventory-store/src/lib.rs:1174-1248 | a report stores its texts and type, and its capabilities only when there are some |
| InventoryStores.PersistPatch | crates/inventory-store/src/lib.rs:1088-1135 | a patch stores exactly the fields it names, a null among them as a declared absence |
| InventoryRuns.CreateManualDevice | crates/inventory-store/src/lib.rs:130-234 | a manually created device starts with every per-device invariant |
| InventoryRuns.CreateObservedDevice | crates/inventory-store/src/lib.rs:576-659 | so does a discovered one |
| InventoryRuns.UpdateDevice | crates/inventory-store/src/lib.rs:265-361 | a patch keeps columns equal to the cleaned declared, else observed, else initial value, and keeps records and history |
| InventoryRuns.MoveDevice | crates/inventory-store/src/lib.rs:390-466 | a transition keeps history, dates and records |
| InventoryRuns.ObserveDevice | crates/inventory-store/src/lib.rs:1250-1314 | an observation keeps them, never overrides a declared value, and last_seen_at stays the maximum of all observation times |
| InventoryRuns.UpsertMany | crates/inventory-store/src/lib.rs:963-1026 | upserting a list succeeds exactly when no other device owns a strong key of it; owners only gain keys, all for this device |
| InventoryRuns.CreateKeeps | crates/inventory-store/src/lib.rs:130-234 | creation succeeds exactly when no device owns any strong identifier given, and then this one owns them all |
| InventoryRuns.ReconcileMatched | crates/inventory-store/src/lib.rs:514-574 | one owner: that device is updated, or review is required when it is retired or archived |
| InventoryRuns.ReconcileUnmatched | crates/inventory-store/src/lib.rs:576-659 | no owner: a device is created, and only as discovered |
| InventoryRuns.ReconcileOutcome | crates/inventory-store/src/lib.rs:478-659 | conflict, update and creation correspond exactly to several, one and no owner; never a duplicate-identifier error |
| InventoryRuns.StaleReconciliation | crates/inventory-store/src/lib.rs:478-659 | with lookups out of date by any amount it ends in a duplicate identifier exactly when the current owners are no longer the device it saw, and otherwise succeeds, unless that device is retired or archived |
| InventoryRuns.DuplicateIffTakenBetween | crates/inventory-store/src/lib.rs:963-1026 | when any run commits between lookups and writes, the duplicate error arises exactly when a strong key that was free at the lookup went to a device the lookup did not see |
| InventoryRuns.RacingFirstReports | crates/inventory-store/src/lib.rs:478-659 | of two first reports that both look up before either writes the second fails so, and made again updates the first one's device |
| InventoryRuns.RepeatedObservation | crates/inventory-store/src/lib.rs:478-572 | a strongly identified observation repeated after any run reaches the same device and moves no identifier, unless that device is retired or archived |
| InventoryRuns.OwnershipIsPermanent | migrations/0009_inventory_lifecycle.sql:80-86 | a strong key has one owner for good, in its own scope, with a row in normal form, and no other device of the scope has it |
| InventoryRuns.Reachable | crates/inventory-store/src/lib.rs:1042-1395 | in every reachable state, also when lookups of observations are out of date, for every device: columns materialise the facts, last_seen_at is the maximum observation time and absent exactly when there was none, version equals the number of audit and of outbox records, each record starts where the previous ended, the log replays to the current state, dates and reason agree with it |
| InventoryRuns.StepAdvances | crates/inventory-store/src/lib.rs:1346-1395 | a call either leaves a device exactly as it was or adds one version stamped with the time of the call, keeping scope, serial and logs, and no recorded fact disappears |
| InventoryRuns.PatchedColumns | crates/inventory-store/src/lib.rs:265-340 | a successful patch sets exactly the columns it names, to the cleaned values |
| InventoryRuns.ObservedColumns | crates/inventory-store/src/lib.rs:1250-1314 | an observation changes a column only to the trimmed value it reports, and only where nothing is declared |
| InventoryLaws.UpdatedTakesReport | crates/inventory-store/src/lib.rs:542-574 | when an observation updates a device, its observed facts hold every reported text, the type and any capabilities; every column that nothing declares takes the report; declared facts, lifecycle, dates, log and other devices stay; one record of each kind is written |
| InventoryLaws.CreatedTakesReport | crates/inventory-store/src/lib.rs:576-659 | a created device holds the report in columns and observed facts, falls back on identifiers for host name and serial, is only discovered, and has one log entry and one record of each kind |
| InventoryLaws.ManualTakesInput | crates/inventory-store/src/lib.rs:130-234 | a manual device holds the input in columns and declared facts, starts in review or managed as approval demands, onboarded only in the latter case |
| InventoryLaws.UpdateAnswer | crates/inventory-store/src/lib.rs:243-263 | an update is refused for these reasons, in this order, and for no other |
| InventoryLaws.UpdateTakesPatch | crates/inventory-store/src/lib.rs:265-361 | every patched text, type and capability list arrives in columns and declared facts, and nothing else changes but version, time and records |
| InventoryLaws.TransitionAnswer | crates/inventory-store/src/lib.rs:373-409 | a transition is refused for these reasons, in this order, and for no other, with the successors of each state listed |
| InventoryLaws.TransitionMoves | crates/inventory-store/src/lib.rs:411-466 | a transition sets state, onboarding and retirement dates and reason as the states demand, logs itself with its reason, and changes nothing else |
| InventoryLaws.RecordNames | crates/inventory-store/src/lib.rs:222-656 | the audit action and event type of every kind of change |
| InventoryLaws.FirstValueIsFirst | crates/inventory-store/src/lib.rs:1423-1428 | a missing column falls back on the first identifier of the kind, trimmed |
| InventoryLaws.IdentifiersArrive | crates/inventory-store/src/lib.rs:963-1026 | every identifier of an upserted list ends up stored as its last report: value, source, confidence, time |
| InventoryLaws.OtherIdentifiersKept | crates/inventory-store/src/lib.rs:963-1026 | the identifier rows of other keys and devices stay as they were |
| InventoryLaws.ReportedIdentifiersArrive | crates/inventory-store/src/lib.rs:530-541 | a reconciliation stores all reported identifiers, weak ones too, as seen at its time |
| InventoryLaws.GivenIdentifiersArrive | crates/inventory-store/src/lib.rs:184-194 | a manual creation stores all given identifiers |
| InventoryLaws.ReconcileLooksUp | crates/inventory-store/src/lib.rs:478-506 | a device is looked up exactly by the owners of the observation's strong keys in its own scope |
| InventoryLaws.TextLimits | crates/inventory-store/src/lib.rs:1441-1452 | the limits of text fields and descriptions, at both boundaries |
| InventoryLaws.CapabilityLimits | crates/inventory-store/src/lib.rs:763-770 | the limits of capability lists |
| InventoryLaws.IdentifierLimits | crates/inventory-store/src/lib.rs:709-727 | the limits of identifiers, sources and confidences |
| InventoryLaws.ContextLimits | crates/inventory-store/src/lib.rs:684-698 | the limits of a request context |
| InventoryLaws.IdentifiersRequired | crates/inventory-store/src/lib.rs:795-800 | an observation needs an identifier, a new device does not |
| InventoryLaws.BadInputRefused | crates/inventory-store/src/lib.rs:684-868 | one bad text, capability list, identifier list or context is enough for a refusal before anything is read |
| InventoryRuns.RunAdvances | crates/inventory-store/src/lib.rs:390-445 | over any run versions rise, logs only grow, the onboarding time stays, and an archived device is frozen |
| InventoryRuns.OneWinner | crates/inventory-store/src/lib.rs:255-263 | of several calls expecting one version of a device at most one changes anything |
| InventoryRuns.RetiredIsReviewed | crates/domain/src/inventory.rs:25-49 | in every reachable log, between retired and a later managed there is pending review |
| InventoryRuns.DiscoveredIsDecided | crates/domain/src/inventory.rs:25-49 | in every reachable log, between discovered and a later managed there is pending review or unmanaged |
| AccessToken.AcceptedIff | crates/security/src/token.rs:114-137 | despite saturation a token is accepted exactly in the window iat - 60 <= now < exp <= iat + 900 with its nbf bounds (RFC 7519 sections 4.1.4 to 4.1.6) |
| Sessions.AuthService.Login | apps/backend/src/auth.rs:259-338 | inserts the session and generation 0 of a new family, or changes nothing |
| Sessions.AuthService.Refresh | apps/backend/src/auth.rs:358-488 | reuse and expiry by the service's clock revoke the family and commit; otherwise the token is rotated; a violated constraint, the expiry check by the database's clock included, rolls back |
| Sessions.AuthService.Logout | apps/backend/src/auth.rs:490-510 | revokes family and session of a known token, ignores an unknown one |
| Sessions.AuthService.AuthenticateAccess | apps/backend/src/auth.rs:512-561 | accepts exactly valid claims of a live, matching, unrevoked session past its access cutoff |
| SessionRuns.StepKeeps | apps/backend/src/auth.rs:297-471 | every action, refused or not, keeps the chains of all sessions consistent |
| SessionRuns.Reachable | migrations/0005_auth_refresh_rotation.sql:27-54 | after any run with fresh values each session has one family with generations 0..n, each token replaced by the next, the tip unconsumed and named by the session, expiries equal; the trigger's condition holds on all rows |
| SessionRuns.RotateSucceedsIff | migrations/0005_auth_refresh_rotation.sql:14-17 | in every chain a rotation with fresh values meets every unique constraint and the trigger, and is refused exactly when the database's clock has reached the session's expiry |
| SessionRuns.ConstraintsRejectIff | migrations/0005_auth_refresh_rotation.sql:14-17 | after any run with fresh values no unique constraint or trigger refuses anything; a login or guarded rotation is refused exactly when the database's clock has reached the expiry the service wrote or read |
| SessionRuns.RefusedAtExpiry | apps/backend/src/auth.rs:423-450 | a concrete run in which the guards pass and the check refuses, leaving all tables as they were |
| SessionRuns.InvImpliesTrigger | migrations/0005_auth_refresh_rotation.sql:27-54 | linked chains satisfy the deferred trigger on every row |
| SessionRuns.RefreshedOnce | apps/backend/src/auth.rs:417-422 | a token value refreshes successfully at most once; a second use after any run is detected as reuse |
| SessionRuns.RevocationIsPermanent | apps/backend/src/auth.rs:696-717 | once a session is revoked, no refresh and no access for it succeeds after any run |
| SessionRuns.ReuseRevokes | apps/backend/src/auth.rs:417-428 | presenting a consumed or revoked token, or logging out with a known one, leaves its session revoked even if a concurrent rotation is unseen |
| SessionRuns.SessionsAreIsolated | apps/backend/src/auth.rs:417-510 | refresh and logout touch no session but the token's own |
| SessionRuns.IssuedTokenWindow | apps/backend/src/auth.rs:612-631 | an issued access token authenticates exactly from a minute before issue for ten minutes after it while its session is live, unrevoked and without an access cutoff |
| SessionLaws.RefreshIsExact | apps/backend/src/auth.rs:358-488 | in every reachable state: reuse exactly for a consumed or revoked token or revoked session, expiry exactly for a live one that has run out, and both revoke the session and every family token the statement saw, keeping earlier marks; otherwise the token is consumed now and exchanged, and no mark moves; an unknown token changes nothing |
| SessionLaws.RevokeFamilyRevokes | apps/backend/src/auth.rs:696-717 | revocation marks the session and the family's tokens, the first mark staying, and nothing else |
| SessionLaws.RotateExchanges | apps/backend/src/auth.rs:430-471 | a rotation writes exactly the next token, the consumption, the replacement and the session's new hash |
| SessionLaws.LoginStarts | apps/backend/src/auth.rs:286-330 | a login starts a session of the verified user and organization for thirty days, with the first token of a new family |
| SessionLaws.RefusedLoginChangesNothing | apps/backend/src/auth.rs:297-338 | a refused login leaves everything alone |
| SessionLaws.LogoutRevokes | apps/backend/src/auth.rs:490-510 | a logout revokes family and session of a known token, and an unknown one changes nothing |
| SessionLaws.AccessIff | apps/backend/src/auth.rs:512-561 | access is granted exactly inside the claims' window, for the session's own user and organization, while it is live, unrevoked and past any cutoff |
| SessionLaws.TriggerDemands | migrations/0005_auth_refresh_rotation.sql:27-47 | what the trigger demands of a replacement |
| Redaction.RedactJson | crates/observability/src/lib.rs:273-289 | the telemetry redactor replaces the values under all sensitive keys, at any depth |
| Redaction.RedactObject | crates/observability/src/lib.rs:275-285 | the copy loop, in any order of entries, gives the redaction of the object |
| Redaction.RedactArray | crates/observability/src/lib.rs:286-287 | arrays are redacted item by item in order |
| Redaction.SanitizeIsRedaction | crates/security/src/audit.rs:104-121 | the audit sanitiser replaces exactly the values under audit-sensitive keys |
| Redaction.TwoPasses | crates/security/src/audit.rs:104-121 | two passes with any key sets are one pass with their union |
| Redaction.RedactionAlgebra | crates/domain/src/governance.rs:48-65 | sanitising and redacting are each idempotent and commute, and both orders are one combined pass |
| Redaction.RedactedPaths | crates/observability/src/lib.rs:273-289 | a path through no sensitive key leads to the redaction of what it led to; any other ends at the marker under its first sensitive key |
| RedactionLaws.AuditSensitiveIff | crates/domain/src/governance.rs:48-65 | the audit sanitiser selects exactly the keys in which a needle stands anywhere, in any case |
| RedactionLaws.AuditSensitiveAnywhere | crates/domain/src/governance.rs:48-65 | a key stays selected whatever surrounds it |
| RedactionLaws.AuditNeedles | crates/domain/src/governance.rs:50-59 | the eight needles of the sanitiser |
| RedactionLaws.SensitiveKeyIff | crates/observability/src/lib.rs:291-316 | the telemetry redactor selects exactly the keys whose letters and digits end in a needle |
| RedactionLaws.SensitiveKeyStyle | crates/observability/src/lib.rs:291-316 | so naming style does not matter, nor what stands before |
| RedactionLaws.CanonicalConcat | crates/observability/src/lib.rs:292-297 | canonical keys are formed piece by piece |
| RedactionLaws.CanonicalChar | crates/observability/src/lib.rs:292-297 | what each character contributes |
| RedactionLaws.TelemetryNeedles | crates/observability/src/lib.rs:299-313 | the thirteen needles of the redactor |
| RedactionLaws.TelemetryExamples | crates/observability/src/lib.rs:376-392 | two naming styles of one key are both selected |
| AuditChain.AuditStore.Append | crates/audit-store/src/lib.rs:26-90 | appends the sealed event at the position after the tip, or changes nothing |
| AuditChain.AuditStore.VerifyOrganizationChain | crates/audit-store/src/lib.rs:92-157 | the loop's answer is the verdict on the organization's sealed rows in sequence order |
| AuditChain.ChainRowsOrdered | crates/audit-store/src/lib.rs:96-106 | on any table the query returns each sealed row of the organization once, by rising sequence number |
| AuditChain.VerdictMeaning | crates/audit-store/src/lib.rs:108-155 | on any table with decodable columns verification is valid with the row count exactly when every row is a link, else broken at the first that is not, with that index and the first thing wrong with it |
| AuditLaws.StoredRowIsSanitised | crates/security/src/audit.rs:63-88 | a stored row has its position, previous hash and own hash, and its payload prints the draft with every other field as given and, in before, after and result, every sensitive path ending at the marker, every clear path leading to the sanitised value, and absence kept |
| AuditLaws.InsertedRowIsSanitised | crates/audit-store/src/lib.rs:26-90 | the same of the row a transaction inserts in any interleaving |
| AuditLaws.NothingSecretCommitted | crates/audit-store/src/lib.rs:26-90 | after any run every committed sealed row prints a draft that was inserted, without its secrets |
| AuditLaws.ResultTokenIsRedacted | crates/security/src/audit.rs:152-168 | a token in the result of an action never reaches the table |
| AuditLaws.HashInputForm | crates/audit-store/src/lib.rs:233-241 | what is hashed: the label and a zero byte, the previous hash if any, the payload |
| AuditLaws.EndOfTransaction | crates/audit-store/src/lib.rs:17-24 | committing adds exactly the transaction's rows, rolling back none |
| AuditLaws.LockGranted | crates/audit-store/src/lib.rs:159-168 | a lock is granted exactly when no other open transaction holds its key |
| AuditLaws.TipRead | crates/audit-store/src/lib.rs:170-199 | reading the tip needs the lock and sees committed and own rows |
| AuditLaws.NextAfterChain | crates/audit-store/src/lib.rs:170-199 | after a linked chain comes its length plus one and its last hash, and 1 without a hash at the start |
| AuditLaws.DraftLimits | crates/audit-store/src/lib.rs:201-220 | the limits of a draft, at both boundaries |
| AuditChain.VerdictErrors | crates/audit-store/src/lib.rs:108-155 | on any table an error comes from the first row that is not a link, and names what is unreadable |
| AuditProtocol.SealVerifies | crates/security/src/audit.rs:70-101 | every sealed event verifies when sealed again, because sanitising is idempotent |
| AuditProtocol.StepKeeps | crates/audit-store/src/lib.rs:26-90 | lock, read, insert, commit and rollback of any transaction keep every chain numbered and hash-linked, seen from every open transaction, for every codec and hash |
| AuditProtocol.CommittedChainVerifiesIff | crates/audit-store/src/lib.rs:92-157 | after any interleaving an organization's committed chain verifies as valid with all its sealed rows counted exactly when each of them decodes and seals to its own hash again |
| AuditProtocol.SealedRowVerifiesIff | crates/security/src/audit.rs:70-101 | a row sealed for a draft decodes and seals again exactly when the draft reprints, unless the two inputs collide |
| AuditProtocol.CommittedChainsVerify | crates/audit-store/src/lib.rs:159-199 | after any interleaving that inserts only drafts that reprint, every organization's committed chain verifies as valid with all its sealed rows counted, unsealed rows ignored |
| AuditProtocol.SequenceIsFresh | crates/audit-store/src/lib.rs:170-199 | the position a transaction has read collides with no committed or pending row, so the unique sequence index never refuses it |
| AuditProtocol.TamperEvidence | crates/audit-store/src/lib.rs:233-241 | unless hash inputs collide, two linked chains with the same last hash agree on every payload backwards, and if one is shorter its first payload is a previous hash followed by a payload |
| AuditProtocol.TipDeterminesChain | crates/audit-store/src/lib.rs:108-155 | unless inputs collide, two non-empty linked chains end in the same hash exactly when they have the same length and the same payload at every position; the fixed start of a printed event rules out chains of different lengths |
| AuditProtocol.EqualTipsEqualPayloads | crates/security/src/audit.rs:70-101 | linked chains of equal length with equal last hashes carry the same events at every position |
| Vault.KeyRing.Insert | crates/security/src/vault.rs:42-47 | files the key under its version, moving the current one only on request, and keeps the ring valid |
| Vault.RingsAreValid | crates/security/src/vault.rs:35-61 | a ring built by insertions has a current key exactly when one was ever made current, which later insertions never undo |
| Vault.EncryptHolds | crates/security/src/vault.rs:75-115 | encrypting any allowed secret succeeds, and the envelope holds it under both layers |
| Vault.DecryptHolds | crates/security/src/vault.rs:117-147 | decryption gives the secret back, or a mismatch for other associated data, or the missing key's version |
| Vault.RotateHolds | crates/security/src/vault.rs:149-152 | rotation keeps the secret and moves the envelope under the current key |
| VaultStores.CredentialVaultStore.New | crates/security-store/src/lib.rs:41-44 | a store is handed out only over a ring with a current key |
| VaultStores.CredentialVaultStore.Create | crates/security-store/src/lib.rs:46-88 | validates, encrypts under the raw kind, stores trimmed values; all or nothing |
| VaultStores.CredentialVaultStore.ResolveSecret | crates/security-store/src/lib.rs:139-167 | not found, inactive, a vault error, or the decrypted secret |
| VaultStores.CredentialVaultStore.ReplaceSecret | crates/security-store/src/lib.rs:169-193 | re-encrypts under the stored kind, for active profiles only |
| VaultStores.CredentialVaultStore.UpdateRow | crates/security-store/src/lib.rs:317-348 | replaces the ciphertext row when the version fits the column and the row exists |
| VaultStores.CredentialVaultStore.Deactivate | crates/security-store/src/lib.rs:195-211 | clears the active flag and says whether it did |
| VaultStores.CredentialVaultStore.RotateProfileKey | crates/security-store/src/lib.rs:213-252 | re-encrypts under the current key unless the row is there already |
| VaultLaws.MasterKeyVersions | crates/security/src/vault.rs:20-28 | a master key needs a version of at least one |
| VaultLaws.LastInsertWins | crates/security/src/vault.rs:42-47 | the key inserted last under a version is the one the ring gives |
| VaultLaws.LastCurrentWins | crates/security/src/vault.rs:42-54 | the current version is that of the last key inserted to be current |
| VaultLaws.RingAnswers | crates/security/src/vault.rs:49-60 | asking for a key names what is missing |
| VaultLaws.EncryptUsesDraws | crates/security/src/vault.rs:75-115 | each layer has its own random nonce and the data layer its own random key |
| VaultLaws.LayersAreApart | crates/security/src/vault.rs:155-160 | what the key layer is bound to is never what a data layer is bound to |
| VaultLaws.CreateStores | crates/security-store/src/lib.rs:55-88 | a created profile is active, holds the trimmed values, has a name of its own in the organization and a ciphertext under the current key |
| VaultLaws.FailedCreateChangesNothing | crates/security-store/src/lib.rs:46-88 | a creation that fails changes nothing |
| VaultLaws.ProfileLimits | crates/security-store/src/lib.rs:254-272 | the limits of a new profile and the error for each |
| VaultLaws.DeactivateClears | crates/security-store/src/lib.rs:195-211 | deactivating clears the flag of an active profile of the organization and changes nothing else |
| VaultLaws.ReplaceStores | crates/security-store/src/lib.rs:169-193 | a replacement succeeds exactly for active profiles of the organization, a secret within limits and a key that fits, and touches one ciphertext |
| VaultLaws.OtherOrganizationFindsNothing | crates/security-store/src/lib.rs:139-252 | a profile of another organization is not found, whatever is asked of it |
| VaultLaws.RowChecks | migrations/0006_vault_envelope_encryption.sql:12-20 | what the checks of a ciphertext row demand |
| VaultRuns.AadInjective | crates/security-store/src/lib.rs:274-276 | the text bound to a ciphertext determines organization, profile and kind |
| VaultRuns.StepKeeps | crates/security-store/src/lib.rs:46-252 | every operation, by processes with different rings, keeps each row holding the last secret written to it and satisfying its check constraints |
| VaultRuns.RotateOutcome | crates/security-store/src/lib.rs:213-252 | exactly when a rotation succeeds, what it changes, and that it keeps the secret |
| VaultRuns.ResolveOutcome | crates/security-store/src/lib.rs:139-167 | what resolving gives in every reachable state for every ring, case by case |
| VaultRuns.CreateSucceedsIff | crates/security-store/src/lib.rs:46-88 | creation succeeds exactly on valid input, a current key whose version fits, a new identifier and an untaken name |
| VaultRuns.CreateResolvesIff | crates/security-store/src/lib.rs:50-66 | a created profile resolves to its secret exactly when its kind was given trimmed |
| VaultRuns.TrailingSpaceLocksOut | crates/security-store/src/lib.rs:50-66 | a concrete profile that is created and cannot be resolved |
| VaultRuns.LockedOutUntilReplaced | crates/security-store/src/lib.rs:139-167 | a profile bound to another kind than it stores is not resolved after any run that does not replace its secret, with any ring |
| VaultRuns.ReplaceResolves | crates/security-store/src/lib.rs:169-193 | after a replacement the profile resolves to the new secret |
| VaultRuns.LastSecretResolves | crates/security-store/src/lib.rs:139-167 | after any run with trimmed kinds and stable key material every active profile resolves to the last secret written |
| VaultRuns.RotateEachMoves | crates/security-store/src/lib.rs:213-252 | rotating a list of profiles moves exactly those to the current key |
| VaultRuns.OldKeysCanBeDropped | crates/security-store/src/lib.rs:213-252 | after rotating all profiles every active one resolves to the same secret with only the current key left |
| VaultRuns.RotatingTwice | crates/security-store/src/lib.rs:237-243 | a second full rotation changes nothing, whatever it draws |
| VaultRuns.MovedCiphertextIsRefused | crates/security/src/vault.rs:117-120 | a ciphertext copied to another profile's row is refused there |
| Roadmap.BuildGraph | scripts/validate_roadmap.py:50-58 | the graph is built exactly when no issue depends on itself or on a missing one; otherwise the failure names such a dependency |
| Roadmap.CycleCheck.Walk | scripts/validate_roadmap.py:83-92 | a walk that returns leaves `visiting` as it was and `visited` topologically ordered; a failing one has a real cycle through the named issue; it terminates on the nodes in neither set |
| Roadmap.CycleCheck.CheckAll | scripts/validate_roadmap.py:80-95 | the loop completes exactly when the graph has no cycle, and then the entry order is a topological order of all issues |
| Roadmap.OrderedIsAcyclic | scripts/validate_roadmap.py:80-95 | a graph that can be listed topologically has no cycle |
| Totp.CodeAt | crates/security/src/totp.rs:21-38 | succeeds exactly for secrets of 20 bytes and times from 0 on, with a code below 10^6 |
| Totp.Offset | crates/security/src/totp.rs:32-36 | the four truncation bytes lie inside the digest (RFC 4226 section 5.3) |
| Totp.BinaryIsPositive | crates/security/src/totp.rs:33-36 | the truncated value has 31 bits |
| Totp.TruncationExample | crates/security/src/totp.rs:32-37 | truncation of the digest in RFC 4226 section 5.4 gives its code 872921 |
| Totp.PrintedForm | crates/security/src/totp.rs:49 | the zero-padded form has exactly six digits and reads back as the code |
| Totp.VerifyCode | crates/security/src/totp.rs:40-57 | a well-formed code is accepted exactly when it is printed at a time in the previous, current or next step, for all 64-bit clocks; malformed codes and short secrets have their own answers |
| Totp.CodeOfStep | crates/security/src/totp.rs:28-37 | at every second of the n-th half minute the code is the truncated digest of counter n modulo 10^6 |
| Totp.CodeErrors | crates/security/src/totp.rs:22-27 | a short secret is reported before a time before the epoch is |
| Totp.AcceptsIff | crates/security/src/totp.rs:40-57 | the window in counters: accepted exactly when the code prints the truncated digest of a counter within one of the clock's, from 0 to the last the clock can reach |
| Totp.PrintedCodeIsAccepted | crates/security/src/totp.rs:40-57 | a code printed at t is accepted at every u at most one step away, so within 30 seconds either way (RFC 6238 section 5.2) |
| Totp.DistantCodeIsRefused | crates/security/src/totp.rs:40-57 | and only then, unless another step of the window prints the same code |
| Ipam.ConflictIff | crates/domain/src/ipam.rs:59-67 | prefixes of one scope conflict exactly when they share an address, and exactly when one is nested in the other (RFC 4632 section 3.1) |
| Ipam.ContainsIff | crates/domain/src/ipam.rs:59-67 | a prefix contains an address exactly when the two agree in its leading bits |
| Ipam.AtMostOnePrefix | crates/domain/src/ipam.rs:59-67 | pairwise unconflicting prefixes give each address at most one prefix |
| Ipam.LinkLocalIsBlock | crates/domain/src/ipam.rs:69-74 | the mask comparison is membership in fe80::/10 (RFC 4291 section 2.5.6) |
| Ipam.IdentityMatchesIndexes | migrations/0001_foundation.sql:194-200 | for valid allocations same identity is exactly a collision in one of the two partial unique indexes |
| Ipam.IdentityIsEquivalence | crates/domain/src/ipam.rs:43-49 | same identity is an equivalence |

## Left out

- HTTP handlers, cookies, CSRF, middleware, telemetry setup, configuration and the frontend: input and output.
- Cryptographic internals, base64 and serde_json: parameters with the hypotheses named above. A token's signature, issuer and audience are taken as already accepted.
- Password verification and the user lookup of login: the parameter `account`.
- 32-bit and 64-bit overflow of attempt counters, versions and generations: these are unbounded here. The chain sequence number and the clocks of tokens and one-time codes do carry their 64-bit limits.
- SessionRuns.ReuseRevokes: does not follow the revocation mark of every token row, because a rotation that commits concurrently can leave a row unmarked; revocation is stated through the session.
- Outbox.OutboxStore.DispatchOnce: does not interleave other workers inside one round, nor the semaphore, though every delivery has its own time; interleavings are the subject of `OutboxRuns`, whose steps are the single transactions.
- Outbox.OutboxStore.DeliverAll: has the same limit.
- Outbox payload columns, validation of new events, consumer deduplication and the backlog count.
- InventoryStores.InventoryStore.ReconcileObservation: runs its lookups and its writes without another transaction in between; `InventoryStores.InventoryStore.Settle` and `InventoryRuns` have the writes apart from the lookups.
- InventoryRuns.StaleReconciliation: takes the writes of one reconciliation as one step, so waiting for another transaction's uncommitted key appears as that transaction coming first.
- VaultRuns.CreateSucceedsIff: leaves out what PostgreSQL itself refuses, text with U+0000 and an organization that does not exist.
- InventoryRuns.CreateKeeps: leaves out the same two refusals, for organization and site.
- Inventory search, pagination, the rounding of confidence to four digits, per-fact sources and times, and the audit sanitiser applied to the device views of mutation records.
- Legacy migration backfills, whose host-name rule differs from the code's.
- The unique index on event hashes and a source address that PostgreSQL refuses: an error that rolls back; whether the address parses is one boolean of the draft.
- Vault metadata documents, profile listings, and a deactivation that slips between the read and the write of one secret replacement.
- Ipam: the prefix library's arithmetic is written out from its definition of network and containment; addresses are their numeric values, an IPv6 one split after its first 16 bits.
- Roadmap phase order, cycle order, release and placement rules, and Python's recursion limit.
- Recovery codes, step-up grants, approvals, role scopes, alert suppression, trial decisions and the identity store: one branch or one query each.
