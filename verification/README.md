# Warehouse ledger, locks, outbox, feed and search: a Dafny model

The system books equipment movements in an append-only journal and keeps stock and custody tables beside it. This
project models the parts where correctness spans several functions and transactions, and proves what they promise.

| file | what it models |
|---|---|
| `Journal.dfy`, `Reversals.dfy`, `Conservation.dfy` | movements, their effects and sums; what the database accepts; reversals; conservation |
| `Projections.dfy`, `Drift.dfy` | the line checks, `refresh_warehouse_projection`, the drift query |
| `Booking.dfy` | what booking a movement does to the tables, line by line, and when its lines fit |
| `LedgerRuns.dfy`, `LedgerTheorems.dfy`, `LedgerEffects.dfy` | interleaved movement transactions with locks, private writes, commit and abort: what they keep and what they achieve |
| `Idempotency.dfy`, `Service.dfy`, `ServiceTheorems.dfy`, `ServiceEffects.dfy`, `ServiceRefusals.dfy`, `Warehouse.dfy` | creating, replaying and reversing a movement: specification, invariants, effects and exact conditions, refusals, and the imperative service |
| `LockProtocol.dfy` with `ReceiptBinding.dfy`, `CustodyHolders.dfy`, `RevisionSealing.dfy`, `LocationArchive.dfy` | one theorem on checks under shared locks, and its four instances |
| `Policy.dfy`, `Identity.dfy`, `IdentityEffects.dfy`, `IdentityRefusals.dfy`, `Authority.dfy`, `Sessions.dfy`, `Accounts.dfy` | roles, access, owner rotation, reset and recovery: specification, effects and exact conditions, refusals, who may change whom, who can still log in, and imperative services |
| `Footprints.dfy`, `IdentityViews.dfy`, `IdentityRuns.dfy` | what identity requests read and write, and their interleavings under shared and exclusive locks |
| `CustodyRuns.dfy`, `CustodyEffects.dfy` | movement and identity transactions interleaved, sharing the lock of each custody holder: what they keep and what they achieve |
| `SystemRuns.dfy` | all warehouse and identity requests in one serial run |
| `Outbox.dfy`, `OutboxEffects.dfy`, `OutboxRuns.dfy` | the notification lease protocol: the table, which rows are claimed and what each step does, and whole runs |
| `Feed.dfy`, `FeedCursor.dfy`, `CursorCodec.dfy`, `Base64Url.dfy`, `Strings.dfy` | the snapshot-stable movement feed and its signed cursor |
| `Like.dfy`, `Relevance.dfy` | LIKE patterns, the search predicate and the relevance score |
| `DecimalIdentity.dfy`, `ItemIdentity.dfy` | canonical decimal text, decimal storage, item signature |

Transactions run at READ COMMITTED: a statement sees committed rows and its own. Row locks and advisory locks are
exclusive and held to the end of the transaction. Digests, HMAC, JSON text, ISO timestamps, case mapping and the
parsing of tokens as numbers are function parameters; where a theorem needs a round trip or two digests not to
collide, it says so in its `requires`. `CursorCodec.LawfulCodecExists` gives a codec that meets the laws of the cursor. UUIDs are integers that are only compared and ordered. Clock readings, fresh ids and tokens are
parameters of the steps.

Three things the code does that its documentation does not say:

- The feed compares `movements.xmin::text::xid8` with the snapshot, and `xmin` shows only the low 32 bits of a
  transaction id. For any snapshot, the comparison judges every id handed out so far as itself if and only if each of
  those past 2^32 is visible in the snapshot (`Feed.CastExactIff`). Otherwise movements committed after the snapshot, or
  running when it was taken, are admitted to its pages (`Feed.LateMovementLeaks`, `Feed.RunningMovementLeaks`).
- The cursor decoder is lenient: characters outside the base64 alphabet are skipped, so several texts decode to one
  token. What is signed is the decoded payload (`FeedCursor.AcceptedIsEncodable`).
- A text attribute whose folded text is the identity text of a decimal gives the same signature as that decimal
  (`ItemIdentity.SameAttribute`).

## Model

| member | source | states |
|---|---|---|
| `LedgerTheorems.TablesFollowJournal` | backend/app/modules/inventory/service.py:149-478 | after every interleaving of movement transactions, statement by statement, with waits and aborts anywhere, the committed stock and custody tables are the sums of the committed journal at every key, with a row exactly where the sum is nonzero, every row in 1..2^53-1, and the drift query finds nothing |
| `LedgerTheorems.ReplayInRange` | backend/app/modules/inventory/service.py:313-408 | replaying the committed journal in the order of `journal_seq` keeps every stock and custody balance within 0..2^53-1 at every prefix, although transactions commit out of that order |
| `LedgerTheorems.RefreshNeverOutOfRange` | backend/migrations/versions/d2e3f4a5b6c7_journal_controlled_projections.py:122-342 | in every reachable state, once a transaction's lines are in, each of its refresh calls succeeds up to the holder check and writes committed balance plus delta |
| `LedgerTheorems.OneMovementPerRequest` | backend/app/modules/inventory/service.py:180-196 | over any interleaving at most one committed movement per actor and request id, and no two share a sequence number |
| `LedgerTheorems.TablesConserve` | backend/app/modules/inventory/service.py:409-442 | over any interleaving the stock table over all locations plus the custody table over all users equals, per item, the signed sum of the committed one-sided movements |
| `LedgerEffects.CommitBooks` | backend/app/modules/inventory/service.py:387-478 | in every reachable world the commit of a refreshed transaction appends its movement and moves every line: out of the source, into the destination, into or out of custody, and no other row |
| `LedgerEffects.AdmissibleIsBooked` | backend/app/modules/inventory/service.py:149-478 | from every reachable world a movement the database accepts, whose id and request are new, whose lines fit the balances and whose locks nobody holds is booked by its own statements: appended with the next number, every line moved |
| `LedgerEffects.NeverBlocked` | backend/app/modules/inventory/service.py:149-478 | whatever transactions are under way and wherever they wait, rolling them back loses nothing committed, and then every movement the committed rows allow is booked |
| `Booking.AgreeMeansBooked` | backend/app/modules/inventory/service.py:409-442 | tables that are the journal's sums before and after an accepted movement differ exactly by its lines, with the custody sign read off ISSUE, RETURN and the original of a reversal |
| `Booking.CheckLinesIff` | backend/app/modules/inventory/service.py:409-442 | the line loop accepts exactly when every quantity is positive, the source has enough, the destination has room and the custody row stays within 0..2^53-1 |
| `Booking.PerUnitIsSign` | backend/app/modules/inventory/service.py:508-522 | the service's custody sign and the SQL function's are both +1 for ISSUE, -1 for RETURN, and the opposite for their reversals |
| `LedgerRuns.RunKeeps` | backend/app/modules/inventory/service.py:149-478 | the invariant of the interleaved machine: what each live transaction has read and written stays right while others commit, because it holds its locks |
| `LedgerRuns.TxStable` | backend/app/modules/inventory/service.py:313-323 | a commit of one lock holder leaves every fact another lock holder relies on |
| `LedgerRuns.RefreshSucceeds` | backend/migrations/versions/d2e3f4a5b6c7_journal_controlled_projections.py:158-340 | a refresh call on committed rows plus own uncommitted rows yields old balance plus delta; only the holder trigger can stop it |
| `Projections.ChecksRefineRefresh` | backend/app/modules/inventory/service.py:409-475 | if the tables agree with the journal and the line loop accepts, every refresh succeeds, the tables agree with the extended journal, and each row becomes old balance plus delta |
| `Projections.SignsAgree` | backend/app/modules/inventory/service.py:508-522 | the service's custody sign equals the SQL CASE for every movement the database accepts |
| `Projections.RefreshWrites` | backend/migrations/versions/d2e3f4a5b6c7_journal_controlled_projections.py:158-340 | what one refresh call writes at every key, and that it keeps rows positive and in range |
| `Drift.DriftExact` | backend/migrations/versions/d2e3f4a5b6c7_journal_controlled_projections.py:22-110 | the drift query reports drift exactly when some stock or custody row differs from the journal's sum |
| `Journal.SumPermuted` | backend/migrations/versions/d2e3f4a5b6c7_journal_controlled_projections.py:158-240 | a balance does not depend on the order in which the journal is summed |
| `Reversals.ReversalMirrors` | backend/migrations/versions/b3c4d5e6f7a8_warehouse_domain_v2.py:571-605 | any reversal the database accepts has exactly the original's item/quantity lines, positions swapped, same custody user |
| `Reversals.LinesMirror` | backend/migrations/versions/b7c8d9e0f1a2_create_warehouse_core.py:706-767 | equal line counts, one line per item and per-line matching force equal line sets (pigeonhole) |
| `Reversals.PairCancels` | backend/app/modules/inventory/service.py:481-505 | deleting a movement together with its reversal from an accepted journal leaves every stock and custody sum unchanged |
| `Conservation.MovementConserves` | backend/app/modules/inventory/service.py:508-522 | an accepted movement changes stock plus custody of an item only if it is one-sided, and then by its signed quantity |
| `Conservation.JournalConserves` | backend/app/modules/inventory/service.py:409-442 | in any accepted journal total stock plus total custody equals the signed sum of the one-sided movements |
| `ServiceTheorems.SubmitKeeps` | backend/app/modules/inventory/service.py:149-478 | a submission, whatever its payload, keeps the ledger: accepted journal, tables equal to its sums, one movement per request, eligible holders |
| `ServiceTheorems.CreatePassesRules` | backend/app/modules/inventory/service.py:114-130 | once the service's own checks pass, no link, position, custody, line or projection rule of the database rejects the movement |
| `ServiceTheorems.ReversePassesRules` | backend/app/modules/inventory/service.py:481-505 | the same for a reversal request |
| `ServiceEffects.CreatedIff` | backend/app/modules/inventory/service.py:149-478 | a submission creates a movement exactly when its key is unused, the request is granted, it has 1 to 500 lines, the actor's role fits the custody, and every line of the payload fits the balances at its own positions |
| `ServiceEffects.SubmitDelivers` | backend/app/modules/inventory/service.py:376-478 | a created movement has the kind, positions, original, actor, custody, key words and lines of the request; every line of the payload leaves the source, reaches the destination and moves the custody row of the caller's custody user; no other row and nothing but the sequence changes |
| `ServiceEffects.ChecksIff` | backend/app/modules/inventory/service.py:170-345 | the service's checks pass exactly for the requests described by their own fields and the rows they name |
| `ServiceEffects.CreateCreatedIff` | backend/app/modules/inventory/service.py:114-130 | the same exact condition for the endpoint, which takes every kind but reversals |
| `ServiceEffects.ReversalTakesBack` | backend/app/modules/inventory/service.py:481-505 | a created reversal takes every line of the movement asked for back to where it came from, out of where it went, and out of or into custody |
| `ServiceEffects.ReverseCreatedIff` | backend/app/modules/inventory/service.py:481-505 | a reversal is created exactly when the movement exists, the mirrored request is granted under an unused key and every line can be taken back |
| `ServiceRefusals.RefusalMeans` | backend/app/modules/inventory/service.py:149-478 | whatever reason a submission is refused with, the condition it names holds of the request and the rows |
| `ServiceRefusals.CreateRefusalMeans` | backend/app/modules/inventory/service.py:114-130 | the same for the endpoint; only a reversal is sent to the other one |
| `ServiceRefusals.RefusalKeeps` | backend/app/modules/inventory/service.py:376-478 | a refusal changes nothing, except that one after the header was numbered loses the number |
| `ServiceTheorems.ReverseUndoes` | backend/app/modules/inventory/service.py:481-505 | a movement directly followed by its reversal leaves both tables as they were, row for row |
| `ServiceTheorems.ResubmissionDecided` | backend/app/modules/inventory/service.py:920-945 | a submission under a used key changes nothing; it replays the movement exactly when early checks pass and the canonical payload is the same, and is refused otherwise, for payloads whose digests do not collide |
| `ServiceTheorems.PermutedResubmission` | backend/app/modules/inventory/service.py:180-196 | resubmitting a created movement's payload in any later state, lines permuted and key respaced, returns that movement and changes nothing |
| `ServiceEffects.CanonIff` | backend/app/modules/inventory/service.py:183-187 | two payloads have the same canonical form exactly when kind, positions, original, custody, key words and the multiset of lines agree |
| `ServiceEffects.ResubmissionIff` | backend/app/modules/inventory/service.py:920-945 | after a creation, a further submission of the actor under the same words, in any later state, changes nothing; it returns the movement exactly when it is the same request, for payloads whose digests do not collide |
| `ServiceTheorems.WriteBooks` | backend/app/modules/inventory/service.py:387-478 | an accepted write is created and books exactly the movement's deltas, with eligible holders |
| `Warehouse.Warehouse.CreateMovement` | backend/app/modules/inventory/service.py:149-478 | the statement-by-statement method computes exactly the answer and the tables of the specification, on every path |
| `Warehouse.Warehouse.WriteMovement` | backend/app/modules/inventory/service.py:376-478 | header, lines and refreshes; every failure rolls the tables back and loses the drawn number |
| `Warehouse.Warehouse.BuildLines` | backend/app/modules/inventory/service.py:409-456 | the line loop stops at the first failing balance check, otherwise numbers the lines in item order |
| `Warehouse.Warehouse.RefreshProjection` | backend/migrations/versions/d2e3f4a5b6c7_journal_controlled_projections.py:122-342 | delete or upsert per key, in the function's order, with its failures |
| `Warehouse.Warehouse.RefreshLines` | backend/app/modules/inventory/service.py:462-475 | one refresh per line, stopping at the first failure |
| `Warehouse.Warehouse.ReverseMovement` | backend/app/modules/inventory/service.py:481-505 | builds the mirrored payload from the original and submits it |
| `Warehouse.Warehouse.SetLocationArchived` | backend/app/modules/inventory/service.py:73-88 | archives only a location without stock rows |
| `ServiceEffects.ArchivingIff` | backend/app/modules/inventory/service.py:73-88 | archiving succeeds exactly for a known location without stock rows, reopening for any known one; then the location is active or not as asked and nothing else changes |
| `Idempotency.NormalizeByWords` | backend/app/core/idempotency.py:8-10 | two keys normalise alike exactly when they have the same words, and normalising is idempotent |
| `Idempotency.SortPermuted` | backend/app/modules/inventory/service.py:183-187 | the canonical line order does not depend on the order submitted |
| `CustodyRuns.HoldersEligibleInterleaved` | backend/app/modules/inventory/service.py:200-295 | in every interleaving of movement statements and identity transactions, with lock waits, failed triggers and aborts, whoever has a committed custody row is APPROVED and ENGINEER or SENIOR_ENGINEER, the tables are the journal's sums and the registry is in order |
| `CustodyRuns.MoveKeeps` | backend/migrations/versions/f7a8b9c0d1e2_harden_catalog_custody_invariants.py:274-311 | a movement statement keeps the links between custody rows, holder locks and standings |
| `CustodyRuns.ManageKeeps` | backend/migrations/versions/f7a8b9c0d1e2_harden_catalog_custody_invariants.py:313-359 | an identity statement or commit keeps them, because every changed user was validated under its lock |
| `CustodyEffects.FittingIsBooked` | backend/app/modules/inventory/service.py:200-478 | from every reachable world of both machines a movement that fits, whose locks nobody holds and whose custody user may hold equipment is booked, line by line |
| `CustodyEffects.GrantedIsCommitted` | backend/migrations/versions/f7a8b9c0d1e2_harden_catalog_custody_invariants.py:313-359 | from every such world an identity request that succeeds, whose locks nobody holds and whose changes leave no holder ineligible is carried out |
| `SystemRuns.MixedRunsKeep` | backend/app/modules/inventory/service.py:200-295 | over every serial run mixing movements, reversals, archiving, receipt bindings and identity requests, holders, ledger, shelves, receipts and registry stay in order |
| `SystemRuns.StepsTakeEffect` | backend/migrations/versions/e5f6a7b8c9d0_harden_procurement_db_invariants.py:163-213 | in those runs a receipt is bound exactly if no movement adjusts it, and an identity request is judged against the users who then have a custody row |
| `LockProtocol.Interleavings` | backend/migrations/versions/f7a8b9c0d1e2_harden_catalog_custody_invariants.py:274-359 | for every protocol whose single writes meet the frame conditions, every interleaving under held locks, with failed checks and aborts, leaves only good committed states |
| `LockProtocol.CommitsAlone` | backend/migrations/versions/f7a8b9c0d1e2_harden_catalog_custody_invariants.py:274-359 | in any world a write whose locks nobody holds and whose checks pass can be committed, and then has exactly its effect |
| `LockProtocol.NeverBlocked` | backend/migrations/versions/f7a8b9c0d1e2_harden_catalog_custody_invariants.py:274-359 | whatever transactions are under way, once they are rolled back every write whose checks pass is committed |
| `ReceiptBinding.ReceiptsStayUnadjusted` | backend/migrations/versions/e5f6a7b8c9d0_harden_procurement_db_invariants.py:129-213 | no interleaving commits a CORRECTION or REVERSAL row of a movement that a request row names as its receipt, and a completed binding never changes |
| `ReceiptBinding.RulesProtect` | backend/migrations/versions/c1d2e3f4a5b6_close_cp18_db_invariant_gaps.py:231-285 | the two triggers meet the conditions of the protocol theorem |
| `ReceiptBinding.MovementAcceptedIff` | backend/migrations/versions/e5f6a7b8c9d0_harden_procurement_db_invariants.py:129-162 | a movement row is refused exactly if it corrects or reverses a bound receipt |
| `ReceiptBinding.RequestAcceptedIff` | backend/migrations/versions/c1d2e3f4a5b6_close_cp18_db_invariant_gaps.py:231-285 | a request row is accepted exactly if it is consistent, keeps a completed binding and binds no adjusted movement |
| `ReceiptBinding.AcceptedRowCommits` | backend/migrations/versions/e5f6a7b8c9d0_harden_procurement_db_invariants.py:129-213 | from every reachable world whatever the triggers let through can be committed, and its row is then there |
| `CustodyHolders.HoldersStayEligible` | backend/migrations/versions/f7a8b9c0d1e2_harden_catalog_custody_invariants.py:274-359 | in every interleaving of custody writes with user inserts and updates, whoever has a committed custody row is eligible |
| `CustodyHolders.AloneIsSound` | backend/migrations/versions/f7a8b9c0d1e2_harden_catalog_custody_invariants.py:313-359 | the immediate and the deferred check together make one transaction safe, also when it changes a user several times |
| `CustodyHolders.RowAcceptedIff` | backend/migrations/versions/f7a8b9c0d1e2_harden_catalog_custody_invariants.py:274-311 | a custody row is accepted exactly for an APPROVED ENGINEER or SENIOR_ENGINEER |
| `CustodyHolders.UserAcceptedIff` | backend/migrations/versions/f7a8b9c0d1e2_harden_catalog_custody_invariants.py:313-359 | a change of a user is refused at commit exactly if it leaves a holder with a changed, ineligible standing |
| `CustodyHolders.AcceptedRowCommits` | backend/migrations/versions/f7a8b9c0d1e2_harden_catalog_custody_invariants.py:274-359 | from every reachable world whatever the triggers let through can be committed, and its row is then there |
| `RevisionSealing.PublishedStaysComplete` | backend/migrations/versions/e3f4a5b6c7d8_fix_procurement_publication_runtime_lock.py:22-70 | once an event row REQUEST_CREATED or REVISION_SUBMITTED of a revision has committed, the revision has exactly `line_count` lines, the same ones, and the event is there, in every later state of every interleaving |
| `RevisionSealing.RulesProtect` | backend/migrations/versions/e5f6a7b8c9d0_harden_procurement_db_invariants.py:24-62 | line insert and publication triggers meet the conditions of the protocol theorem |
| `RevisionSealing.LineAcceptedIff` | backend/migrations/versions/e5f6a7b8c9d0_harden_procurement_db_invariants.py:24-62 | a line is accepted exactly for a known revision without a line of that number and without an event REQUEST_CREATED or REVISION_SUBMITTED |
| `RevisionSealing.EventAcceptedIff` | backend/migrations/versions/e3f4a5b6c7d8_fix_procurement_publication_runtime_lock.py:22-70 | an event is accepted exactly if it is no such event of a revision, or the revision has as many lines as its header says |
| `RevisionSealing.AcceptedRowCommits` | backend/migrations/versions/e3f4a5b6c7d8_fix_procurement_publication_runtime_lock.py:22-70 | from every reachable world whatever the triggers let through can be committed, and its row is then there |
| `LocationArchive.ArchivedStaysEmpty` | backend/app/modules/inventory/service.py:73-88 | no interleaving commits an archived location that holds stock |
| `LocationArchive.AcceptedIff` | backend/app/modules/inventory/service.py:73-88 | stock moves exactly through active locations; a location is archived exactly if no stock row lies there |
| `LocationArchive.AcceptedRowCommits` | backend/app/modules/inventory/service.py:73-88 | from every reachable world whatever the checks let through can be committed, and takes effect |
| `Identity.RunsKeep` | backend/app/modules/auth/service.py:54-255 | after every serial identity run at most one OWNER, who is APPROVED; a PENDING request only for a PENDING user; every user's events lead link by link to the current values; an OWNER once there is always there |
| `IdentityRuns.Serializable` | backend/app/modules/identity/locking.py:12-69 | every interleaving of identity transactions under the barrier, row and login locks leaves the registry a serial run of the committed requests, in commit order, would have left |
| `IdentityRuns.InterleavedRegistryOk` | backend/app/modules/identity/admin_service.py:316-343 | so all of the above holds of every committed state of every interleaving |
| `IdentityRuns.TxStable` | backend/app/modules/identity/locking.py:36-69 | another commit leaves what a transaction has computed under its locks exactly what it would compute now |
| `IdentityRuns.GrantedIsCommitted` | backend/app/modules/identity/locking.py:12-69 | from every reachable world a request that succeeds on the committed rows and whose locks nobody holds is carried out by a transaction of its own |
| `IdentityRuns.NeverBlocked` | backend/app/modules/identity/locking.py:12-69 | whatever transactions are under way, once they are rolled back every request that succeeds on the committed rows is carried out |
| `IdentityViews.SameViewSameEffect` | backend/app/modules/identity/admin_service.py:391-663 | two registries that agree on what a successful request reads lead to the same rows and events |
| `Footprints.BodyTouches` | backend/app/modules/identity/admin_service.py:391-663 | a request changes only the users it is about, removes nobody, and only extends the logs |
| `Identity.ExecKeeps` | backend/app/modules/identity/admin_service.py:391-663 | each transaction keeps these |
| `Identity.RotateKeeps` | backend/app/bootstrap/recovery_owner_rotation.py:63-287 | rotation succeeds exactly when no refusal applies, moves the OWNER role to the confirmed user and keeps the registry in order; its closing verification never fails |
| `Identity.ReconcileKeeps` | backend/app/modules/auth/service.py:54-174 | reconciling leaves the recovery user the single approved OWNER |
| `Identity.ResetKeeps` | backend/app/modules/identity/reset_service.py:51-201 | a reset keeps the registry in order and the OWNER in place |
| `Identity.TransitionCore` | backend/app/modules/identity/access_lifecycle.py:12-44 | a transition appends the one event that continues the user's chain |
| `IdentityEffects.BodyAchieves` | backend/app/modules/identity/admin_service.py:391-663 | an effects table, one clause per request: a success leaves the role, access, approval, decision, session and login asked for, logs exactly the changes made with their actor, and leaves the other columns alone |
| `IdentityEffects.CommittedIff` | backend/migrations/versions/f7a8b9c0d1e2_harden_catalog_custody_invariants.py:313-359 | a successful request commits exactly if no holder it is about is left with a changed, ineligible standing; otherwise nothing changes and the caller is told |
| `IdentityRefusals.SucceedsIff` | backend/app/modules/identity/admin_service.py:316-663 | each request succeeds exactly under a condition on the actor, the target, their rows and what the target holds or has open |
| `IdentityRefusals.RefusalSays` | backend/app/modules/identity/admin_service.py:316-663 | whatever error a request fails with, the condition it names holds; the closing verification of a rotation never is the reason |
| `Authority.ChangeAuthorised` | backend/app/modules/identity/admin_service.py:316-663 | whoever's role or access differs after a transaction, the request had the right to change it so: nobody manages themselves, the OWNER and the recovery user are out of reach, an ADMIN is made and unmade by the OWNER only |
| `Authority.EventsNameActor` | backend/app/modules/identity/access_lifecycle.py:12-44 | the audit logs only grow, and every event a transaction adds names the one responsible |
| `Footprints.HoldersKept` | backend/migrations/versions/f7a8b9c0d1e2_harden_catalog_custody_invariants.py:313-359 | no committed identity transaction makes a holder ineligible |
| `Sessions.LoggedOutAtOnce` | backend/app/modules/identity/admin_service.py:478-490 | blocking, resetting and rotating leave the users concerned without a session |
| `Sessions.SessionsAuthenticate` | backend/app/modules/auth/service.py:337-368 | in every run each session not revoked belongs to a user with a login |
| `Sessions.ResetForever` | backend/app/modules/identity/reset_service.py:51-201 | after a reset the old account has no login and no session in any later state |
| `Sessions.NoticeWithdrawn` | backend/app/modules/identity/reset_service.py:147-178 | a reset removes the pending request and withdraws its notice unless a worker holds it |
| `Accounts.Accounts.TransitionUserAccess` | backend/app/modules/identity/access_lifecycle.py:12-44 | status, approval fields and event; nothing when the status is unchanged |
| `Accounts.Accounts.UpdateUserAccess` | backend/app/modules/identity/admin_service.py:391-493 | answer and new registry of the specification on every path |
| `Accounts.Accounts.DecidePendingAccessRequest` | backend/app/modules/identity/admin_service.py:496-573 | answer and new registry of the specification on every path |
| `Accounts.Accounts.UpdateUserRole` | backend/app/modules/identity/admin_service.py:576-663 | answer and new registry of the specification on every path |
| `Accounts.Accounts.CreateOrGetAccessRequest` | backend/app/modules/access/service.py:50-92 | answer and new registry of the specification on every path |
| `Accounts.Accounts.ResetUserAccount` | backend/app/modules/identity/reset_service.py:51-201 | answer and new registry of the specification on every path |
| `Accounts.Accounts.ReconcileRecoveryOwner` | backend/app/modules/auth/service.py:54-174 | answer and new registry of the specification on every path |
| `Accounts.Accounts.UpsertTelegramIdentity` | backend/app/modules/auth/service.py:177-255 | identity and user as the specification has them, on every path |
| `Accounts.Accounts.Authenticate` | backend/app/modules/auth/api.py:74-81 | identity and session in one transaction: answer and new registry of the specification on every path |
| `Accounts.Accounts.RotateRecoveryOwner` | backend/app/bootstrap/recovery_owner_rotation.py:63-287 | answer and new registry of the specification on every path |
| `Outbox.Table.Enqueue` | backend/app/modules/notifications/service.py:45-96 | inserts once per key, requeues a dead row on request, leaves any other row |
| `Outbox.Table.SelectBatch` | backend/app/modules/notifications/service.py:107-145 | the first rows, in order, of those claimable and not locked by others |
| `Outbox.Table.First` | backend/app/modules/notifications/service.py:107-145 | a least row in the order of availability, creation and id |
| `Outbox.Table.ClaimBatch` | backend/app/modules/notifications/service.py:99-165 | claims exactly the first eligible rows, each once under its own token, with the attempt counter of the stale-final path |
| `Outbox.Table.MarkSent` | backend/app/modules/notifications/service.py:168-192 | changes the row only for the owner of the current token |
| `Outbox.Table.MarkFailed` | backend/app/modules/notifications/service.py:200-233 | backoff or DEAD, only for the owner of the current token |
| `Outbox.ClaimAllRows` | backend/app/modules/notifications/service.py:147-165 | the claim loop changes each picked row once and no other |
| `OutboxEffects.PickedInOrder` | backend/app/modules/notifications/service.py:107-145 | the rows claimed are pending, due, unlocked and in order of availability, creation and id, and no due row left out comes before one of them |
| `OutboxEffects.PickedEnough` | backend/app/modules/notifications/service.py:130-145 | as many rows are claimed as asked for, or all that are due |
| `OutboxEffects.EarlyRowIsClaimed` | backend/app/modules/notifications/service.py:107-145 | a due row with fewer than the batch size of other due rows available no later than it is always claimed |
| `OutboxEffects.StepDoes` | backend/app/modules/notifications/service.py:45-233 | every enqueue, claim, finish and withdrawal takes effect exactly when it applies, sets status, token, attempts and doubled delay as promised, and otherwise changes nothing |
| `OutboxEffects.EnqueuedRow` | backend/app/modules/notifications/service.py:45-96 | a new row carries the call, is available when asked or at once, and has had no attempt |
| `OutboxEffects.HandedOver` | backend/app/modules/notifications/service.py:147-165 | a worker is told the key and token of its claim and the number of the attempt |
| `OutboxRuns.BatchIsSteps` | backend/app/modules/notifications/service.py:99-165 | a claim transaction is one step of the life of each row |
| `OutboxRuns.NeverStuck` | backend/app/modules/notifications/service.py:107-145 | in every run a PENDING row is claimable exactly from `available_at` if unclaimed, exactly strictly after `claimed_at` plus TTL if claimed |
| `OutboxRuns.RowsStayOk` | backend/app/modules/notifications/service.py:147-165 | unclaimed PENDING rows have attempts below the maximum, claimed rows 1..max |
| `OutboxRuns.SentIsFinal` | backend/app/modules/notifications/service.py:168-192 | SENT is never left |
| `OutboxRuns.LeavesPending` | backend/app/modules/notifications/service.py:200-233 | if every claim is finished, a row is claimed at most max_attempts times and is not PENDING after that many |
| `OutboxRuns.ClaimsApart` | backend/app/modules/notifications/service.py:107-145 | two claims with nothing finished between are more than the TTL apart |
| `OutboxRuns.OnlyLatestToken` | backend/app/modules/notifications/service.py:168-192 | whatever happened since the latest claim, only its token finishes anything; and it does if nothing happened |
| `OutboxRuns.SupersededToken` | backend/app/modules/notifications/service.py:168-233 | once a later claim took effect, a late finish under the earlier token never does, also after a recorded failure or requeue |
| `OutboxRuns.FinishesOnce` | backend/app/modules/notifications/service.py:200-233 | each token finalises at most once |
| `OutboxRuns.BackoffHolds` | backend/app/modules/notifications/service.py:195-233 | with a nondecreasing clock n recorded failures put `available_at` at least 2^n - 1 seconds after the first claim, n up to 9 |
| `Feed.FeedIsTheSnapshot` | backend/app/modules/inventory/service.py:664-746 | following the cursor returns exactly the movements of the initial snapshot whose own fields fulfil every filter, once each, in descending sequence, whatever commits between pages, in max(1, ceil(matches/limit)) pages, as long as the ids past 2^32 handed out by then are visible in the snapshot |
| `Feed.ListedIff` | backend/app/modules/inventory/service.py:553-609 | a movement is listed exactly if it is committed, has the kind, actor, item and period asked for, and the location is its source or its destination |
| `Feed.SnapshotStable` | backend/app/modules/inventory/service.py:848-883 | rows visible in the snapshot stay the same under any later steps |
| `Feed.OnePage` | backend/app/modules/inventory/api.py:501-588 | a page read in any later state continues the listing where the last one ended |
| `Feed.CastExactIff` | backend/app/modules/inventory/service.py:692-712 | for any snapshot, the 32-bit cast judges every transaction handed out as itself if and only if every id past 2^32 among them is visible in the snapshot |
| `Feed.LaterSnapshotAdmitsAll` | backend/app/modules/inventory/service.py:692-712 | for snapshots taken past the first cycle of ids, the snapshot condition admits every row |
| `Feed.LateMovementLeaks` | backend/app/modules/inventory/service.py:692-712 | for every snapshot of a run and every later id whose low half is visible in it, some continuation puts a movement of that transaction at the head of the first page |
| `Feed.RunningMovementLeaks` | backend/app/modules/inventory/service.py:692-712 | likewise a movement of a transaction that was running when the snapshot was taken is admitted once it commits |
| `FeedCursor.CursorRoundTrip` | backend/app/modules/inventory/feed_cursor.py:77-247 | encoding succeeds exactly for valid states; decoding gives the state back exactly when the age is in -60..3600 and the scope digest agrees, and the named error otherwise |
| `FeedCursor.AcceptedIsEncodable` | backend/app/modules/inventory/feed_cursor.py:128-247 | whatever the decoder accepts can be issued again, and carried a signature over the bytes parsed |
| `FeedCursor.AcceptedIff` | backend/app/modules/inventory/feed_cursor.py:128-247 | a token is accepted as a state exactly if what precedes its first dot decodes to bytes signed by what follows, which parse to a payload of this version, age and scope holding that state |
| `FeedCursor.EncodeRefusalMeans` | backend/app/modules/inventory/feed_cursor.py:77-125 | each refusal to encode names the field that is wrong |
| `FeedCursor.Reissued` | backend/app/modules/inventory/feed_cursor.py:77-125 | a cursor reissued from a decoded one returns the same state |
| `Base64Url.RoundTrip` | backend/app/modules/inventory/feed_cursor.py:34-46 | bytes of every length survive unpadded encoding and lenient decoding |
| `Base64Url.EncodedSymbols` | backend/app/modules/inventory/feed_cursor.py:34-35 | encoded text holds only letters, digits, `-` and `_`, so never the separator dot |
| `Base64Url.PaddingRestored` | backend/app/modules/inventory/feed_cursor.py:38-46 | adding `=` up to a multiple of four restores the padded text |
| `Like.EscapeIsPerCharacter` | backend/app/modules/catalog/query.py:438-443 | the three chained replacements are one per-character map |
| `Like.BareMeansEqual` | backend/app/modules/catalog/query.py:438-443 | LIKE with the escaped fragment means equality |
| `Like.PrefixMeansPrefix` | backend/app/modules/catalog/query.py:450-451 | LIKE with the prefix pattern means prefix |
| `Like.ContainsMeansSubstring` | backend/app/modules/catalog/query.py:446-447 | LIKE with the contains pattern means substring |
| `Like.FoldedMeanings` | backend/app/modules/catalog/query.py:554-564 | the same three meanings for ILIKE, up to case |
| `Relevance.ScoreDecidesMatch` | backend/app/modules/catalog/query.py:480-716 | a token's score is positive, and then at least 45, exactly when the separately written predicate accepts the item |
| `Relevance.AcceptsMeans` | backend/app/modules/catalog/query.py:480-522 | the predicate in plain terms: substring of name, model or manufacturer, or a searchable attribute equal to or containing the token |
| `Relevance.TextRelevanceMeans` | backend/app/modules/catalog/query.py:525-551 | the CASE of a text column: which weight for equality, prefix, substring |
| `Relevance.RowAgrees` | backend/app/modules/catalog/query.py:554-651 | the row condition and the row's weight agree, grade by grade |
| `Relevance.BestAgrees` | backend/app/modules/catalog/query.py:653-679 | the best searchable row decides the attribute score |
| `Relevance.TotalDecidesMatch` | backend/app/modules/catalog/query.py:682-716 | the total is positive exactly when some token is accepted, and at least 45 per token for an item the search returns |
| `Relevance.ScoreIs` | backend/app/modules/catalog/query.py:682-716 | the score of a token is the sum of four grades in plain terms: model 160/120/80, name 150/110/70, manufacturer 120/90/60 for equal, beginning, containing, and 100/75/45 for the best searchable attribute |
| `Relevance.SearchRelevanceScore` | backend/app/modules/catalog/query.py:682-716 | the accumulating loop computes the total |
| `DecimalIdentity.IdentityText` | backend/app/modules/catalog/normalization.py:36-49 | two decimals of any sign, digits and exponent have the same text exactly when numerically equal |
| `DecimalIdentity.TextKeepsValue` | backend/app/modules/catalog/normalization.py:36-49 | reading the text gives the number back |
| `DecimalIdentity.ParseText` | backend/app/modules/catalog/normalization.py:36-49 | reading the text gives the normal form |
| `DecimalIdentity.TextIsCanonical` | backend/app/modules/catalog/normalization.py:36-49 | the text is an optional minus, a whole part without leading zeros and an optional fraction without trailing zeros, and never minus zero |
| `ItemIdentity.AcceptedIff` | backend/app/modules/catalog/service.py:328-343 | the storage check accepts exactly the decimals written with at most ten places and of magnitude below 10^20 |
| `ItemIdentity.RefusedIff` | backend/app/modules/catalog/service.py:328-343 | too many places is reported exactly for more than ten, too large a number exactly for the others of 10^20 or more |
| `ItemIdentity.StoredExactly` | backend/app/modules/catalog/models.py:478 | an accepted value is exact in NUMERIC(30,10), and the text of the stored ten-place value is unchanged |
| `ItemIdentity.SignatureIdentifies` | backend/app/modules/catalog/normalization.py:52-77 | two items whose digests do not collide share a signature exactly when category, folded manufacturer and model, and every kept attribute agree, decimals as numbers |
| `ItemIdentity.SignatureSurvivesStorage` | backend/app/modules/catalog/normalization.py:52-77 | recomputing the signature from the stored decimal gives the same one |

## Left out

- LedgerTheorems.ReplayInRange: custody in the replay is summed with each movement's original looked up in the whole journal, as the database does, not in the prefix.
- Feed.FeedIsTheSnapshot: requires that ids past 2^32 are visible in the snapshot while pages are read, because the code's 32-bit cast is exact exactly then (`Feed.CastExactIff`).
- Feed.SnapshotStable: category and long-range filters read mutable item attributes, so no stability follows for them and they are not modelled; the period's calendar arithmetic is taken as the bounds `since` and `until`.
- LedgerRuns.RunKeeps: a transaction of the machine books one movement; the locations' row locks are left to `LocationArchive`. The service's own lock on the custody user's row only makes transactions wait more and is not modelled.
- LockProtocol.Interleavings: advisory lock keys are taken as distinct for distinct rows; a hash collision only makes a transaction wait more. Deadlock detection is an abort.
- SystemRuns.MixedRunsKeep: requests are atomic there; the interleaved form for custody holders is `CustodyRuns.HoldersEligibleInterleaved`, for receipts `ReceiptBinding`, for locations `LocationArchive`.
- Identity.RunsKeep: requests are atomic there; the interleaved form is `IdentityRuns.InterleavedRegistryOk`.
- IdentityRuns.Serializable: a request reads its rows in one step once all its locks are held; an object cached by the ORM session from before the locks is not modelled.
- Sessions.SessionsAuthenticate: expiry and the cap on sessions per user, which only end more of them, are not modelled.
- Sessions.NoticeWithdrawn: what workers do with a notice is modelled in `OutboxRuns`, not in the registry's runs.
- Outbox.Table.ClaimBatch: rows locked by other workers are a parameter; deletion by retention is not modelled. `OutboxRuns` follows one row at a time.
- FeedCursor.CursorRoundTrip: float rounding in `timestamp()` and text that UTF-8 cannot encode are not modelled; the key derivation is part of the given signature function.
- Relevance.ScoreDecidesMatch: ILIKE's case mapping is per character, fixes the three special characters and maps nothing else onto them; collations are not modelled.
- ItemIdentity.AcceptedIff: minimum and maximum metadata, and the parsing of the raw value into a decimal, are not modelled.
- Triggers and the lock machines are modelled on values, as state machines over steps; the update in place of rows is modelled in `Warehouse`, `Accounts` and `Outbox.Table`.
- The ordering of `occurred_at`, snapshots of names in lines, listing endpoints other than the cursor feed.
- The procurement service, the Telegram bot, the email worker: only the trigger rules they meet are modelled.
- HTTP routers, cookies, settings, health checks, backups, release scripts and the frontend.
- Workbook import, facets and technical retention: flat checks and folds.
- The strength of HMAC and SHA-256.
