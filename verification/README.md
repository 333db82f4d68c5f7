# Verified models of the content pipeline

The repository is a task-driven content pipeline: workers lease items, call an upstream, and
write results in fenced transactions. This project models the protocols and loops that must
account for every row, and proves what they guarantee over every run. `dafny verify
dfyconfig.toml` checks all of it.

Two forms are used side by side. A protocol is a state machine over its atomic statements
(`Enabled`, `Next` or `Do`, `Run`), so that any number of executions interleave and can crash
between any two statements. A handler or script that updates rows step by step is a class or a
method with the original's loop, proved to compute a function of its inputs or of the old
state; the lemmas are about that function or about whole runs.

| files | subject |
|---|---|
| `PromoClaim`, `PromoClaimSafety`, `PromoClaimRuns`, `PromoClaimReview`, `PromoReadback`, `PromoClaimWorker` | the claim of a promo code: a non-idempotent `getcode` behind a durable intent |
| `PromoBinding`, `PromoBindingRaces` | PromoLink rows and the Articles bound to them |
| `IndexNow`, `IndexNowRuns`, `IndexNowRetries`, `IndexNowEndings`, `IndexNowHazards`, `IndexNowWorker` | delivery of one outbox row by racing workers and by recovery |
| `SourceTable`, `CatalogScan`, `CatalogFinalize`, `CatalogRecovery`, `DroppedLabelTallies`, `DroppedLabels` | the catalog scan: pages, stop decision, finalization by generation, gap recovery, dropped labels |
| `Keyset`, `CatalogSelection`, `CatalogBatch`, `CatalogFanOut`, `ArticleBatch` | keyset enumeration and batch fan-out |
| `Csv`, `CanonicalPlan`, `TranslationOverlay` | taxonomy bootstrap and translation overlay |
| `LocaleBackfill`, `Histogram` | the locale backfill |
| `CredentialLifecycle`, `CredentialTransactions` | the credential status and its latch |
| `Doubles`, `Sequences`, `SortedSets`, `Wrappers` | floating-point addition of counts, duplicate-free sequences, sorted sets, `Option` |

## What the proofs rest on

- One lease at a time is valid for one claim target: the active-item guard of
  `worker/handlers/catalog-batch.ts:144-156` and the unique scope hash keep two items for one
  target from being open together, and an item gets a single attempt
  (`worker/handlers/promo-link-claim.ts:1059`). An execution that lost its lease goes on running
  in the model until it notices.
- A `getcode` failure classified as not ambiguous had no effect upstream (`RejectedFailure`).
- A protected write is one atomic step that commits or leaves no trace, and it commits only under
  the lease; single statements outside a transaction are single steps.
- Under the rule `Careful` an operator answers "no effect" exactly when the request can no longer
  take effect: it minted nothing, is not in flight (it was rejected or lost), and its owner neither
  is about to dispatch nor can pass its lease recheck. The code does not enforce this;
  `WriteOffMintsIff` and `SecondCodeIff` show that the rule is exact.
- Credentials have the unique indexes of `prisma/schema.prisma:145-148` and
  `prisma/migrations/20260803090000_p1_initial_schema/migration.sql:1284`; row locks are held until a
  transaction ends, and other transactions see its writes only then (READ COMMITTED).
- Batches enumerate a fixed snapshot (RepeatableRead); the locale backfill has no concurrent writer.
- `localeCompare` is a total order on normalized keys and the fingerprint hash is injective.
- The finalize item is claimed only when no page is open, and pages are claimed in order
  (`src/lib/tasks/store.ts:129-152`). An admin retry needs a task that ended `failed` or
  `completed_with_errors` (`src/server/task-admin/service.ts:65`), which a task with a pending or
  processing item, or a paused one, never is (`src/lib/tasks/store.ts:282-313`).

## Where the code falls short of a promise

Each of these is a lemma with the run or input that shows it, next to the exact condition.

- At most one code per target fails when an operator writes off a request that can still take effect
  (`HastyOperatorBreaksAtMostOnce`). After the answer "no effect" some continuation mints for that
  intent if and only if the request can still take effect (`WriteOffMintsIff`); with nothing else
  open on the target that is also exactly when a second code is possible (`SecondCodeIff`).
- A worker that dies after creating its IndexNow attempt row and before marking the outbox row
  stops that row for good: every later delivery loses on the unique index. A due row can still be
  delivered if and only if it is not in that state (`DeliverableIffNotWedged`).
- A recovery pass that dies between its two statements leaves the row `processing`
  (`HalfRecoveryStrands`). A `processing` row can leave that status if and only if its newest attempt
  is not written off or somebody still has something to do with it (`LeavesProcessingIff`).
- Recovery that starts while a slow worker is alive lets an accepted row be submitted again
  (`LateAnswerRevivesAcceptedRow`). A settled row is POSTed again by some run if and only if a worker
  can still POST an attempt of its own or, with the next attempt number free, a pending decision
  makes the row due (`SettledPostsAgainIff`). With a recovery that waits for the others the budget and
  finality hold (`QuietRecoveryIsSafe`).
- A binding update names its Article by id alone, so of two overlapping binding transactions the one
  that commits last wins (`SecondCommitWins`). Without a rebind, a committed binding can change if and
  only if an open transaction of another link read the Article before it was bound and its foreign
  keys still fit (`BindingLostIff`).
- A recovery page that repeats one approved item in place of another passes its checks and leaves a
  gap (`RepeatedItemHidesGap`); the gap closes if and only if the selected items are distinct
  (`RecoveryPageExact`).
- A generation recorded as completed can later be recorded as failed (`CompletedCanEndFailed`), without
  any retry or recovery if and only if its finalize item has not succeeded yet
  (`CompletedEndsFailedIff`); and a generation past the largest safe integer falls back to 1
  (`BumpGrowsIff`).
- Dropped-label counts are floating-point sums. Merging page summaries equals merging all groups
  while the total is a safe integer (`MergeOfMerges`) and can differ beyond it although every page is
  safe (`RoundingBreaksMerge`). The merged groups are the same for every way of cutting the labels
  into pages if and only if no key was dropped more often than a safe integer can count
  (`RegroupingIff`), and a merged total is a safe integer if and only if the true one is, and then
  equals it (`MergedTotal`).
- The CSV scanner loses a leading byte order mark of an unquoted first cell, a CR at the end of a
  row that ends in a bare LF, and a final unterminated row that is one empty cell (`RoundTripIff`,
  `BareLfRoundTrip`, `RoundTripUnterminated`).

## Model

| member | source | states |
|---|---|---|
| `PromoClaimSafety.AtMostOneCode` | worker/handlers/promo-link-claim.ts:724-948 | over every run of any number of executions, with crashes, lost leases, lost requests, late upstream effects and correct write-offs anywhere, nobody dispatches `getcode` twice, at most one dispatch belongs to an intent that is not `failed`, and the upstream mints at most one code |
| `PromoClaimSafety.StepKeepsInv` | worker/handlers/promo-link-claim.ts:576-949 | every step of every execution, of the upstream, of the lease table and of the operator keeps the protocol's invariant |
| `PromoClaimSafety.FailedHadNoEffect` | worker/handlers/promo-link-claim.ts:864-909 | an intent once recorded `failed` has no code and never gets one, whatever happens later, provided operators write off only requests that can no longer take effect |
| `PromoClaimSafety.AtMostTwoReadbacks` | worker/handlers/promo-link-claim.ts:750-922 | no execution completes more than two readbacks |
| `PromoClaimSafety.IntentStep` | worker/handlers/promo-link-claim.ts:427-481 | a step changes an intent only along the worker graph, by a confirming write, or by adjudication; a worker confirms only in the leased write that makes the link `fetched` with the code it has just read back |
| `PromoClaimSafety.SettledStaysSettled` | src/lib/tasks/side-effect-intent.ts:92-111 | `confirmed` and `failed` are final over every run |
| `PromoClaimSafety.ManualReviewStays` | worker/handlers/promo-link-claim.ts:734-745 | no run of workers takes an intent out of manual review; only an operator does |
| `PromoClaim.PriorIntent` | worker/handlers/promo-link-claim.ts:726-733 | an intent that still counts is found whenever there is one |
| `PromoClaim.PriorIntentIsNewest` | worker/handlers/promo-link-claim.ts:726-733 | the intent found is the newest one that counts: all later ones failed |
| `PromoClaimRuns.RerunSettles` | worker/handlers/promo-link-claim.ts:734-774 | one uninterrupted rerun over any state a crash left drives the newest counting intent to `confirmed` with the link fetched, or to manual review with the link pending; it dispatches no `getcode` and moves no other intent |
| `PromoClaimRuns.ClaimProceeds` | worker/handlers/promo-link-claim.ts:776-863 | with no counting intent, no fetched link and a lease that holds, an execution does reach `getcode` |
| `PromoClaimRuns.HastyOperatorBreaksAtMostOnce` | src/server/task-admin/service.ts:2322-2355 | without the operator rule there is a run that mints two codes for one target |
| `PromoClaimReview.WriteOffMintsIff` | src/server/task-admin/service.ts:2322-2355 | after "no effect" was answered for an intent under manual review, some continuation mints a code for it if and only if its request can still take effect |
| `PromoClaimReview.SecondCodeIff` | src/server/task-admin/service.ts:2322-2355 | with every other intent failed and no fetched link, that answer lets the target end with a second code if and only if the request can still take effect |
| `PromoReadback.ReadCoordinate` | worker/handlers/promo-link-claim.ts:652-680 | between 1 and `attempts` calls; every call before the last was worth retrying with no abort, and the answer is the last call's, or an abort |
| `PromoReadback.Readback` | worker/handlers/promo-link-claim.ts:688-706 | at most 2 × `attempts` calls; one coordinate, and exactly when it matched no row and a title can be reloaded a second one; a found or a missing promo is the last call's answer |
| `PromoReadback.TwoCoordinatesUnique` | worker/handlers/promo-link-claim.ts:652-706 | one upstream, one first call and one set of options determine the number of calls and the answer of a readback |
| `PromoReadback.CoordinateInFull` | worker/handlers/promo-link-claim.ts:655-678 | a further call follows exactly a retryable error or, after a mutation, a promo that is missing or not the expected one; a read that ends early on such an answer was aborted |
| `PromoReadback.FirstSettledAnswerWins` | worker/handlers/promo-link-claim.ts:661-675 | after a mutation and without an abort, a promo that becomes visible, or an error that is not retryable, at call `n` within the attempts ends the read with exactly `n` calls |
| `PromoReadback.TransientErrorsUseEveryAttempt` | worker/handlers/promo-link-claim.ts:660-664 | without an abort, retryable errors alone use up every attempt, and the error is reported |
| `PromoClaimWorker.ReachableIsSafe` | worker/handlers/promo-link-claim.ts:576-949 | every state reachable by steps meets the invariant and has at most one minted code |
| `PromoClaimWorker.ClaimWorker.ClaimViaAdapter` | worker/handlers/promo-link-claim.ts:724-949 | the handler, with everybody else's steps in between: it halts after at most one `getcode` and 4 × `attempts` readback calls; without a prior intent it passes the pre-read towards `getcode` if and only if the upstream's answers to the pre-read ended in a missing promo, takes a promo over if and only if they ended in a found one, with that code, and fails closed on every other answer; with a prior intent it makes no `getcode`, reads unless the intent is under manual review, and recovers exactly a found promo; every code it reports is the last call's answer, and a write that took effect left the link its decision says |
| `PromoClaimWorker.ClaimWorker.PreReadThenClaim` | worker/handlers/promo-link-claim.ts:776-837 | in terms of the upstream's answer to the pre-read: a found promo is taken over without `getcode`, a missing one is claimed unless the lease is lost, and any other answer fails closed with no write |
| `PromoClaimWorker.ClaimWorker.CallUpstream` | worker/handlers/promo-link-claim.ts:688-706 | the result of a readback names the upstream's answer: found with its code, missing, thrown, or none of these |
| `PromoClaimWorker.ClaimWorker.FollowPrior` | worker/handlers/promo-link-claim.ts:734-774 | an intent under manual review is not read again; for any other one a found promo is recovered and every other answer leads to manual review; none of it calls `getcode` |
| `PromoClaimWorker.ClaimWorker.Confirm` | worker/handlers/promo-link-claim.ts:912-948 | the code `getcode` returned is claimed if and only if the confirming read ended in a promo with that code; otherwise the intent goes to manual review |
| `PromoClaimWorker.ClaimWorker.PrepareAndRecheckLease` | worker/handlers/promo-link-claim.ts:837-859 | the intent is durable before the lease is rechecked, and a lost lease ends the execution |
| `PromoClaimWorker.ClaimWorker.GetCode` | worker/handlers/promo-link-claim.ts:861-866 | exactly one dispatch, and where each kind of answer leads |
| `PromoClaimWorker.ClaimWorker.Settle` | worker/handlers/promo-link-claim.ts:864-948 | `claimed` if and only if `getcode` returned a code and the read with that expectation ended in it, `readback_recovered` if and only if the failure was ambiguous and the read found a promo, `claim_failed` only after a rejection |
| `PromoClaimWorker.ClaimWorker.Recover` | worker/handlers/promo-link-claim.ts:746-773 | readback-only recovery: a found promo is recovered with its code, every other answer goes to manual review, and nothing is dispatched |
| `PromoClaimWorker.ClaimWorker.RouteIntentToManualReview` | worker/handlers/promo-link-claim.ts:708-722 | the route through `claim_retry_blocked` ends before the manual-review write, or was refused |
| `PromoClaimWorker.ClaimWorker.ProtectedWrite` | worker/handlers/promo-link-claim.ts:427-481 | the terminal write takes effect exactly under the lease and with a confirmable intent, and then leaves link and intents as its decision says; otherwise it leaves both as they were |
| `PromoBinding.RunsPreserveBindings` | worker/handlers/promo-link-claim.ts:199-243 | over any sequence of whole claim writes, catalog captures, reconciliations and Article creations, deletions and rebinds, one transaction after the other, a key keeps its redirect code, redirect codes stay unique, a bound Article keeps its PromoLink unless a rebind names it, and bindings stay within one Novel and point at links that were fetched |
| `PromoBinding.BindingChangesIff` | src/server/article-rebind/service.ts:314-372 | a transaction changes a bound Article's link if and only if it is a rebind of that Article that its guards let through |
| `PromoBinding.PromoStore.RebindArticle` | src/server/article-rebind/service.ts:314-372 | committed if and only if the Article is live on the Novel the operator saw, the target is another Novel and the link is fetched and of it, or none; then exactly that row gets exactly the two fields, otherwise nothing changes |
| `PromoBindingRaces.BindingLostIff` | worker/handlers/promo-link-binding.ts:38-66 | with reads and commits of binding transactions interleaved and no rebind, a committed binding can still change if and only if an open transaction of another link read the Article as unbound and its foreign keys fit |
| `PromoBindingRaces.StepChangesBindingIff` | worker/handlers/promo-link-binding.ts:38-66 | the steps that change a committed binding are exactly the rebind of the Article and the commit of a transaction that read it before it was bound |
| `PromoBindingRaces.SecondCommitWins` | worker/handlers/promo-link-binding.ts:38-66 | two links of one Novel that both read its Article as unbound: the last commit has it |
| `PromoBindingRaces.UndisturbedBindIsWhole` | worker/handlers/promo-link-binding.ts:33-68 | a read with its commit right behind it is the whole binding of the other rows |
| `PromoBinding.BindingPartitions` | worker/handlers/promo-link-binding.ts:38-67 | the three lists are duplicate-free, disjoint and together exactly the Novel's live Articles |
| `PromoBinding.ListsInFull` | worker/handlers/promo-link-binding.ts:45-66 | of the Novel's live Articles the unbound ones are listed as bound, those on this link as already bound, those on another as conflicted |
| `PromoBinding.RebindingIsIdle` | worker/handlers/promo-link-binding.ts:47-66 | repeating a binding call binds nothing, writes nothing and reports the earlier bindings as already bound |
| `PromoBinding.PromoStore.BindPromoLinkToArticles` | worker/handlers/promo-link-binding.ts:33-68 | the loop writes exactly the unbound live Articles and returns the three lists; it aborts exactly when the composite foreign key refuses one |
| `PromoBinding.PromoStore.EnsurePromoLinkRow` | worker/handlers/promo-link-claim.ts:199-243 | an existing row is returned untouched, a new one gets the redirect code, a taken code aborts |
| `PromoBinding.PromoStore.WriteClaim` | worker/handlers/promo-link-claim.ts:333-481 | each terminal write of a claim: it commits exactly when its keys allow it, sets the status of its kind and on success code, address and origin, leaves other rows and the row's identity alone and binds exactly the unbound live Articles; an aborted one leaves no trace |
| `PromoBinding.ClaimInFull` | worker/handlers/promo-link-claim.ts:199-426 | the same of the transaction every run is made of: when it commits, and which field and row it leaves how |
| `PromoBinding.CaptureInFull` | worker/handlers/moboreader.ts:505-545 | a capture sets code, address and status, keeps an existing origin, and does nothing for an incomplete promo or an unlinked source |
| `PromoBinding.PromoStore.PersistExistingCatalogPromo` | worker/handlers/moboreader.ts:494-551 | catalog capture writes code, address and status and binds Articles only for a complete promo of a linked source, all or nothing |
| `PromoBinding.PromoStore.ReconcileAlreadyFetchedBinding` | worker/handlers/promo-link-claim.ts:305-331 | reconciliation only binds Articles to a link that is already fetched |
| `IndexNowRuns.NoDuplicateSubmission` | worker/handlers/indexnow-delivery.ts:148-194 | under any interleaving, crashes and recovery at any time, attempt rows are exactly 1..k, the attempt count is k-1 or k and never decreases, no attempt number is POSTed twice, and there are never more POSTs than the attempt count |
| `IndexNowRuns.DeliverableIffNotWedged` | worker/handlers/indexnow-delivery.ts:161-180 | a due row can reach another POST if and only if no crash left its next attempt row unmarked |
| `IndexNowRuns.WedgedForever` | worker/handlers/indexnow-delivery.ts:164-180 | from such a state no run ever adds an attempt, moves the count or POSTs the next number |
| `IndexNowRuns.OneCrashWedges` | worker/handlers/indexnow-delivery.ts:164-180 | a fresh row and one crash suffice to get there |
| `IndexNowEndings.LeavesProcessingIff` | src/lib/indexnow/recovery.ts:36-113 | some run takes a `processing` row out of that status if and only if its newest attempt is not written off or some worker has something left to do with it |
| `IndexNowEndings.StrandedForever` | src/lib/indexnow/recovery.ts:60-113 | a row left `processing` with its newest attempt written off and nobody busy is never touched again |
| `IndexNowEndings.SettledPostsAgainIff` | worker/handlers/indexnow-delivery.ts:177-225 | from an accepted, failed, dead-lettered or cancelled row some run POSTs again if and only if a worker can still POST its own attempt or, with the next number free, a worker's pending decision makes the row due |
| `IndexNowRuns.QuietRecoveryIsSafe` | src/lib/indexnow/recovery.ts:35-115 | when recovery starts only with nobody alive on the row, there are never more POSTs than the budget and none after the row is accepted, failed or dead-lettered |
| `IndexNowRetries.RetriedUntilAnswered` | src/lib/indexnow/delivery-primitives.ts:81-127 | undisturbed deliveries POST a row under 1, 2, ... exactly until the first answer 200, 202, 400, 403 or 422 or until the budget is used up, and however many deliveries follow nothing else is sent; the last answer decides between accepted, permanently failed and dead-lettered |
| `IndexNowRetries.DueDelivery` | worker/handlers/indexnow-delivery.ts:148-227 | one undisturbed delivery of a due row sends one POST under the next number and leaves the status its answer calls for |
| `IndexNowHazards.LateAnswerRevivesAcceptedRow` | worker/handlers/indexnow-delivery.ts:210-225 | a slow worker's late failure reopens an accepted row, which is then submitted beyond its budget |
| `IndexNowHazards.HalfRecoveryStrands` | src/lib/indexnow/recovery.ts:60-84 | a crash in the worker and one between recovery's two statements strand the row |
| `IndexNowWorker.Deliverer.Deliver` | worker/handlers/indexnow-delivery.ts:86-228 | with others interfering anywhere, a delivery POSTs only under a number it alone created, and nothing when it lost the number, the row was not due, unconfigured or drifted, and a drifted row ends cancelled; after a POST the row is accepted if and only if the answer was 200 or 202, permanently failed if and only if it was 400, 403 or 422, and otherwise dead-lettered or retried by attempt number and budget |
| `IndexNowWorker.Deliverer.Submit` | worker/handlers/indexnow-delivery.ts:177-227 | mark, POST, record and fold: the same statement of the row's status in terms of the HTTP answer, the attempt number and the budget |
| `IndexNowWorker.Deliverer.RecoverStale` | src/lib/indexnow/recovery.ts:47-113 | recovery acts exactly when the newest attempt is not written off yet: no attempt makes the row pending, a lost answer retries it within the budget, and a recorded answer decides as a fresh one does |
| `CatalogScan.FullPagesScan` | worker/handlers/moboreader.ts:726-753 | against an upstream with a fixed total that serves full pages a scan stops by its scheduled end having counted min(requested capacity, upstream remainder), or its scheduled capacity exactly when that is smaller, then on `safety_limit`; it never stops on `short_page` or `expected_pages_reached` |
| `CatalogScan.FullPageDecision` | worker/handlers/moboreader.ts:105-120 | the stop decision on any page such a scan reaches |
| `CatalogScan.ScanFrom` | worker/handlers/moboreader.ts:745-753 | whatever the upstream answers, an ascending scan stops by its scheduled end |
| `CatalogScan.ScanInFull` | worker/handlers/moboreader.ts:105-120 | for any upstream: every page before the stop is full with more expected, the count is the sum of the answers, and the stopping answer has exactly the property its reason names: unusable, empty, enough counted, safety limit reached, last page reached, or short with none of these |
| `CatalogScan.DecisionInFull` | worker/handlers/moboreader.ts:105-120 | the condition of every stop reason, and of going on, on any page, count and total |
| `CatalogScan.CatalogTask.Scan` | src/lib/tasks/store.ts:129-143 | whatever the upstream answers, pages claimed in order end at the page and for the reason `ScanInFull` describes, the pages before it succeeded with what they returned, it and the pages behind it carry the reason and failed exactly on an upstream error, and the task reports page, reason and count |
| `CatalogScan.CatalogTask.ScanPage` | worker/handlers/moboreader.ts:1461-1478 | one page ends the scan where the specification says, or leaves the next one to claim |
| `CatalogScan.CatalogTask.PersistCatalogPage` | worker/handlers/moboreader.ts:570-866 | one source id per counted item, the condition of each stop reason on the sum of all pages, the cascade over pending later pages, and a reported count equal to that sum |
| `CatalogScan.CatalogTask.PersistCatalogUpstreamFailure` | worker/handlers/moboreader.ts:891-996 | a failed page fails every pending later page and keeps what was counted |
| `CatalogScan.CatalogTask.Cascade` | worker/handlers/moboreader.ts:779-794 | exactly the pending pages behind the stopping one end with it |
| `CatalogScan.CatalogTask.PersistItems` | worker/handlers/moboreader.ts:630-705 | the loop over the books upserts, or for recovery inserts, and collects the ids of the rows it wrote |
| `CatalogScan.CatalogTask.FinalizeCounts` | worker/handlers/moboreader.ts:1057-1131 | the count is the number of source ids of all successful items, recovery pages included, and distinct ids plus duplicate observations are that count exactly: the `Math.max` never clips |
| `CatalogScan.UniqueWithinCount` | worker/handlers/moboreader.ts:1065-1072 | the successful pages never hold more distinct source ids than they counted |
| `CatalogScan.FoundAreCounted` | worker/handlers/moboreader.ts:1057-1072 | the items counted are the source ids of all successful items, repetitions included, and the distinct ones are the set they form |
| `SourceTable.ScanPagePersists` | worker/handlers/moboreader.ts:669-705 | a scan page yields the id of each book's row, one per book, and no row changes its id |
| `SourceTable.ScanPageData` | worker/handlers/moboreader.ts:669-705 | after a scan page the row of a book holds the data of the last book with its identity, and all other rows are unchanged |
| `SourceTable.RecoveryPageData` | worker/handlers/moboreader.ts:655-667 | a recovery page adds for a new identity a row with the first such book's data and numbers the added rows one after the other |
| `SourceTable.RecoveryPagePersists` | worker/handlers/moboreader.ts:655-667 | a recovery page changes no existing row |
| `SourceTable.RecoveryPageCounts` | worker/handlers/moboreader.ts:655-705 | a recovery page's source ids number exactly the rows it added |
| `SourceTable.PersistedKeys` | worker/handlers/moboreader.ts:655-703 | a page of either kind adds exactly the identities it was given |
| `CatalogFinalize.GenerationsOverRuns` | worker/handlers/moboreader.ts:1032-1056 | over any run of page writes, failures, finalize phases, retries and recoveries a recorded generation is the item's, the item's generation is one plus the retries and recoveries so far, and once a generation was completed no execution of it or of an earlier one begins |
| `CatalogFinalize.StepKeepsInv` | worker/handlers/moboreader.ts:803-826 | every event keeps generation, record and execution in agreement and raises the generation exactly at a retry or recovery |
| `CatalogFinalize.BumpGrowsIff` | scripts/catalog-finalize-recovery.ts:285-290 | a recovery or retry raises the generation if and only if it is below the largest safe integer; at it the generation falls back to 1 |
| `CatalogFinalize.CanCompleteIff` | src/lib/tasks/store.ts:121-152 | while the task is not paused, a run without retry, recovery or resume completes the current generation if and only if it was completed before, its item is pending or processing, or an open page is still to create the item |
| `CatalogFinalize.NewGenerationCanComplete` | src/server/task-admin/service.ts:1590-1625 | every retry and every recovery below the largest safe integer starts a generation never begun before, recorded as pending, which can be completed with nobody's help; a recovery leaves the task running |
| `CatalogFinalize.Generation` | src/lib/tasks/moboreader.ts:33-35 | any raw value yields a positive safe integer |
| `CatalogFinalize.CompletedEndsFailedIff` | src/lib/tasks/store.ts:517-528 | a completed generation can still be recorded as failed, without a retry or recovery, if and only if its item has not succeeded |
| `CatalogFinalize.CompletedCanEndFailed` | src/lib/tasks/store.ts:517-528 | a run that reaches that window and ends there |
| `CatalogFinalize.CatalogTask.PersistPage` | worker/handlers/moboreader.ts:802-866 | a stopping page creates the item if there is none and records its generation as pending, any other page drops the record and leaves the item alone |
| `CatalogFinalize.CatalogTask.PersistUpstreamFailure` | worker/handlers/moboreader.ts:945-985 | a failing page records the item's generation |
| `CatalogFinalize.CatalogTask.RunCatalogFinalize` | worker/handlers/moboreader.ts:1020-1139 | an uninterrupted execution leaves a completed generation alone, and otherwise completes one that was never completed before, exactly once |
| `CatalogFinalize.CatalogTask.FailCatalogFinalize` | src/lib/tasks/moboreader.ts:572-605 | giving up records the failed generation and fails the item, which keeps its generation |
| `CatalogFinalize.CatalogTask.RearmCatalogFinalize` | src/server/task-admin/service.ts:1542-1630 | an admin retry of a task that has ended makes the item pending under the generation past the item's and the recorded one, and that generation can be completed |
| `CatalogFinalize.CatalogTask.RunCatalogRecovery` | scripts/catalog-finalize-recovery.ts:227-333 | refused unless still paused and idle; otherwise the item is pending under one generation past the item's and the record read earlier, even a stale one, the task is running again, and that generation can be completed |
| `CatalogRecovery.FingerprintOfSet` | worker/handlers/moboreader.ts:79-95 | two identity lists have one fingerprint if and only if they are the same set; normalizing again changes nothing |
| `CatalogRecovery.NormalizedRecoveryIdentities` | worker/handlers/moboreader.ts:79-89 | rejected exactly for an empty field, otherwise the sorted duplicate-free list of the same set |
| `CatalogRecovery.RecoveryPageExact` | worker/handlers/moboreader.ts:1479-1518 | a recovery page that passed its checks changes no existing row, adds approved identities only, and closes the approved gap if and only if the selected items are distinct |
| `CatalogRecovery.PinnedGapCloses` | scripts/catalog-finalize-recovery.ts:194-225 | the gap an operator pinned, read again unchanged with distinct identities, passes and leaves no upstream identity without a row |
| `CatalogRecovery.RepeatedItemHidesGap` | worker/handlers/moboreader.ts:1508-1517 | two copies of one approved item pass the checks and leave the other one missing |
| `CatalogRecovery.CheckRecoveryPage` | worker/handlers/moboreader.ts:1490-1518 | the worker's drift checks, row by row: `gap drift` exactly when an approved identity has a row, approval exactly when none has and the page holds as many approved items as were approved |
| `CatalogRecovery.ChecksInFull` | worker/handlers/moboreader.ts:1490-1518 | the gap has drifted if and only if an approved identity has a row by now, and the upstream if and only if it has not and the approved items on the page are not as many as were approved; otherwise exactly those items go on |
| `CatalogRecovery.SelectedInOrder` | worker/handlers/moboreader.ts:1508-1511 | the selected items are the approved ones, in page order and as often as they occur |
| `DroppedLabels.MergeOfMerges` | worker/handlers/moboreader.ts:416-429 | with a total of at most the largest safe integer, merging per-page merges equals merging all groups |
| `DroppedLabels.RegroupingIff` | worker/handlers/moboreader.ts:327-364 | the merged groups are the same for every order of the labels and every way of cutting them into pages if and only if no key was dropped more often than a safe integer can count |
| `DroppedLabels.RoundingBreaksMerge` | worker/handlers/moboreader.ts:345-355 | two safe pages whose merge of merges counts 2^53 + 2 and whose merge at once counts 2^53 |
| `DroppedLabels.OrderIrrelevant` | worker/handlers/moboreader.ts:327-364 | when the merged total is a safe integer, the order of the groups does not matter |
| `DroppedLabels.MergeCanonical` | worker/handlers/moboreader.ts:327-364 | two inputs with safe totals merge alike if and only if every key was dropped equally often |
| `DroppedLabels.MergedTotal` | worker/handlers/moboreader.ts:353-363 | the keys are unique and sorted; the merged total is a safe integer if and only if the number of dropped labels is, and then it is that number and the sum of the group counts |
| `DroppedLabels.MergedGroups` | worker/handlers/moboreader.ts:343-353 | one group per dropped key; a count is a safe integer if and only if its key was dropped that safely often, and then it is how often |
| `DroppedLabels.MergeDroppedLabels` | worker/handlers/moboreader.ts:327-364 | malformed summaries and groups contribute nothing and the loops compute the rounded merge of the rest |
| `Doubles.RoundedLarge` | worker/handlers/moboreader.ts:345-355 | beyond that a rounded count never falls back below 2^53 |
| `Keyset.NextPage` | worker/handlers/catalog-batch.ts:81-88 | the query behind the cursor returns exactly the next matching rows |
| `Keyset.FetchPage` | worker/handlers/article-generate-batch.ts:168-187 | one page and the cursor behind it |
| `CatalogSelection.NormalizeIsCanonical` | src/domain/catalog-batch.ts:32-41 | a selection is accepted if and only if it is not empty and every id is valid; its ids are strictly increasing and depend only on the set denoted |
| `CatalogBatch.Enumeration.StreamSelection` | worker/handlers/catalog-batch.ts:65-90 | any selection is visited page by page or chunk by chunk; for a filter and for a normalized id list every selected row of the snapshot exactly once, in id order |
| `CatalogBatch.NormalizedChunks` | worker/handlers/catalog-batch.ts:70-79 | cutting a sorted duplicate-free id list into chunks finds what the whole list finds |
| `CatalogBatch.Enumeration.StreamFilter` | worker/handlers/catalog-batch.ts:80-89 | the keyset loop ends and visits exactly the matching rows |
| `CatalogBatch.Enumeration.StreamIds` | worker/handlers/catalog-batch.ts:70-79 | chunks of any id list, sorted or not, visit exactly the rows each chunk finds |
| `CatalogBatch.Enumeration.VisitRow` | worker/handlers/catalog-batch.ts:152-183 | one row enters exactly one counter or bucket, in the handler's order of checks, and all counters keep agreeing with the rows visited |
| `CatalogBatch.VerdictsAddUp` | worker/handlers/catalog-batch.ts:152-183 | every row has exactly one verdict |
| `CatalogBatch.ClaimVerdicts` | worker/handlers/catalog-batch.ts:152-181 | which rows of a promo claim are submitted, blocked by an active item or a missing account, or ineligible, by row fields and lookups |
| `CatalogBatch.MaterializeVerdicts` | worker/handlers/catalog-batch.ts:157-174 | which rows of a materialization are submitted, already linked, ineligible, or blocked for a missing or unsupported locale |
| `CatalogFanOut.Materialize` | worker/handlers/catalog-batch.ts:134-259 | for every selection selected = submitted + ineligible + already linked + blocked after all demotions, each blocked reason counts its rows and its withdrawn groups, and the children's totals sum to submitted; for a filter or a normalized list an id is in some child if and only if its row is selected, fits the operation by its fields, and its group is bound and its scope free; the transaction commits unless a child lists a row twice, which a normalized selection rules out |
| `CatalogFanOut.CreateChildren` | worker/handlers/catalog-batch.ts:187-253 | each demotion moves a whole group from submitted to its reason, each other group becomes one child |
| `CatalogFanOut.ChildrenPartition` | worker/handlers/catalog-batch.ts:187-241 | a submitted row of a surviving group is in exactly one child, any other row in none |
| `CatalogFanOut.InChildIff` | worker/handlers/catalog-batch.ts:152-241 | without naming the classification: for a promo claim a row is in a child if and only if it is linked with a Novel, has no active item and an account, its app is bound to the enabled capability and its group's scope is free; for a materialization if and only if it is pending without a Novel, has a supported locale where the policy asks for one, and its scope is free |
| `CatalogFanOut.SelectedIff` | worker/handlers/catalog-batch.ts:56-90 | the rows visited for a filter or a normalized list are exactly the selected rows that are not deleted |
| `CatalogFanOut.DemotionInFull` | worker/handlers/catalog-batch.ts:191-221 | a group is withdrawn for its binding exactly when a promo claim finds none, and for its scope exactly when it would otherwise run and the scope is taken |
| `CatalogFanOut.ChildHolds` | worker/handlers/catalog-batch.ts:188-241 | a child lists exactly the rows submitted under its app, once each, and carries the app's account for a promo claim and none otherwise |
| `CatalogFanOut.BucketsHoldSubmitted` | worker/handlers/catalog-batch.ts:180-182 | the buckets together hold as many rows as were submitted |
| `CatalogFanOut.CreateItems` | worker/handlers/catalog-batch.ts:227-241 | the chunks of createMany are the members, once each, in order |
| `ArticleBatch.EnumerateLeaves` | worker/handlers/article-generate-batch.ts:160-226 | leaves hold 1 to 200 ids, together exactly the generatable eligible novels in id order, carry distinct tokens, and every other eligible novel is counted under its reason |
| `ArticleBatch.LeavesCoverExactly` | worker/handlers/article-generate-batch.ts:192-215 | a novel is in some leaf if and only if it is eligible and can be generated |
| `ArticleBatch.LeavesDisjoint` | worker/handlers/article-generate-batch.ts:192-215 | no novel is in two leaves |
| `ArticleBatch.HandlePage` | worker/handlers/article-generate-batch.ts:167-226 | one turn of the paging loop extends leaves, counters and cursor by one page |
| `ArticleBatch.Admit` | src/server/content-creation/eligibility.ts:45-94 | a page's ready ids in order, and each other row counted under the one reason the classification gives it |
| `ArticleBatch.ResolveAdmission` | src/server/content-creation/eligibility.ts:56-92 | the classifier's order of checks with the exact condition of each reason: deletion, the first Article of the novel's locale, promo readiness |
| `ArticleBatch.CanGenerateIff` | src/server/content-creation/eligibility.ts:69-91 | a novel can be generated if and only if it is live, its promo is ready and it has no Article of its locale, not even a deleted one |
| `ArticleBatch.BlockedInFull` | src/server/content-creation/eligibility.ts:56-92 | exactly which novels are blocked for which reason: the deleted ones; of the others those whose first Article of the locale is live, or soft-deleted; and only without an Article of the locale those whose promo is not ready |
| `ArticleBatch.BlockedExactly` | worker/handlers/article-generate-batch.ts:188-200 | each reason's count is the number of novels blocked for it |
| `Csv.RoundTrip` | scripts/p2-06-5-production/tagging-bootstrap.ts:473-497 | any matrix of nonempty rows printed as section 2 of RFC 4180 says, with any permitted quoting and even with unquoted CRs inside cells, is read back exactly |
| `Csv.RoundTripIff` | scripts/p2-06-5-production/tagging-bootstrap.ts:474-491 | that holds if and only if the text does not begin with an unquoted byte order mark |
| `Csv.BomLost` | scripts/p2-06-5-production/tagging-bootstrap.ts:474 | what is read instead: the matrix without the mark |
| `Csv.RoundTripUnterminated` | scripts/p2-06-5-production/tagging-bootstrap.ts:490-491 | without a final line ending the matrix comes back too, unless its last row is one empty cell |
| `Csv.BareLfRoundTrip` | scripts/p2-06-5-production/tagging-bootstrap.ts:487 | with bare LF the matrix comes back if and only if no row ends in CR |
| `Csv.FailsIffOddQuotes` | scripts/p2-06-5-production/tagging-bootstrap.ts:479-490 | a text is rejected if and only if it holds an odd number of quotes |
| `Csv.RecordsRoundTrip` | scripts/p2-06-5-production/tagging-bootstrap.ts:492-496 | with distinct header names and full-width rows that are not all empty the records round-trip |
| `Csv.RecordsInFull` | scripts/p2-06-5-production/tagging-bootstrap.ts:492-496 | for any header and rows: blank rows are skipped, every other row becomes one record in order, a missing cell is empty, a surplus one is dropped, and of two columns of one name the last counts |
| `Csv.ParseMatrix` | scripts/p2-06-5-production/tagging-bootstrap.ts:475-491 | the character loop computes the matrix the round trips are about |
| `Csv.ParseCsv` | scripts/p2-06-5-production/tagging-bootstrap.ts:473-497 | the whole parser computes the records, and reports an open quote exactly for an odd number of quotes |
| `CanonicalPlan.KeywordsBelongToOneTag` | scripts/p2-06-5-production/tagging-bootstrap.ts:337-349 | in a plan no normalized keyword belongs to two tags, nor twice to one |
| `CanonicalPlan.IdentitiesBelongToOneTag` | scripts/p2-06-5-production/tagging-bootstrap.ts:364-376 | no stable id, slug or alias belongs to two tags of an accepted artifact |
| `CanonicalPlan.SeedsAccounted` | scripts/p2-06-5-production/tagging-bootstrap.ts:411-429 | each distinct normalized seed of a tag is kept once or skipped for exactly one reason |
| `CanonicalPlan.KeptInOrder` | scripts/p2-06-5-production/tagging-bootstrap.ts:411-429 | the keywords of a tag are, in order, exactly the seeds that are the first of their key in the tag, shared with no other tag, in a known script and not disabled by the overlay |
| `CanonicalPlan.SkippedExactly` | scripts/p2-06-5-production/tagging-bootstrap.ts:411-429 | each count of skipped seeds is the number of first seeds of a key with its property |
| `CanonicalPlan.PlanInFull` | scripts/p2-06-5-production/tagging-bootstrap.ts:378-441 | a plan has the tags in artifact order with their slugs, aliases and translations and a sort order in steps of ten, and counts aliases and translations |
| `CanonicalPlan.SeedsConserved` | scripts/p2-06-5-production/tagging-bootstrap.ts:378-441 | over the plan, distinct seeds equal kept keywords plus the three kinds of skips |
| `CanonicalPlan.FindCollisions` | scripts/p2-06-5-production/tagging-bootstrap.ts:337-349 | the first pass finds exactly the seeds of two or more tags |
| `CanonicalPlan.FindIdentityCollision` | scripts/p2-06-5-production/tagging-bootstrap.ts:364-376 | the identity pass fails if and only if two stable ids share an identity |
| `CanonicalPlan.BuildKeywords` | scripts/p2-06-5-production/tagging-bootstrap.ts:411-429 | the loop over a tag's seeds computes what is kept and skipped |
| `CanonicalPlan.BuildCanonicalPlan` | scripts/p2-06-5-production/tagging-bootstrap.ts:331-452 | a plan exists if and only if the artifact meets every invariant, and shared identities are reported before any other violation of a tag |
| `CanonicalPlan.AcceptedInFull` | scripts/p2-06-5-production/tagging-bootstrap.ts:378-410 | the accepted artifacts field by field: public tags with id, slug, known facet, named translations and no empty seed or alias, distinct ids and slugs, and no identity of two tags |
| `TranslationOverlay.ApplyReachesFixpoint` | scripts/p2-06-5-production/canonical-tag-translation-overlay.ts:551-566 | planning again after an apply gives zero writes, everything unchanged and the same exceptions; the row count grew by exactly `insert`; translations outside the plan are as before |
| `TranslationOverlay.PlanAddsUp` | scripts/p2-06-5-production/canonical-tag-translation-overlay.ts:401-437 | insert + update + unchanged + exception is the number of planned rows, and an exception is a missing tag or another slug |
| `TranslationOverlay.NoExceptionIff` | scripts/p2-06-5-production/canonical-tag-translation-overlay.ts:401-440 | a plan has no exception if and only if every row's tag exists under the slug the row names |
| `TranslationOverlay.AppliedRows` | scripts/p2-06-5-production/canonical-tag-translation-overlay.ts:558-564 | applying brings every row without exception to its planned name |
| `TranslationOverlay.AppliedNames` | scripts/p2-06-5-production/canonical-tag-translation-overlay.ts:558-564 | when every row matches its tag, applying leaves each planned translation with its planned name and every other one as it was |
| `TranslationOverlay.OthersUntouched` | scripts/p2-06-5-production/canonical-tag-translation-overlay.ts:558-564 | a translation outside the plan is untouched |
| `TranslationOverlay.RepeatedRowNeverSettles` | scripts/p2-06-5-production/canonical-tag-translation-overlay.ts:236-238 | without the uniqueness check two rows that disagree would be written again forever |
| `TranslationOverlay.CheckUnique` | scripts/p2-06-5-production/canonical-tag-translation-overlay.ts:212-238 | the check accepts exactly the row lists without a repeated key |
| `TranslationOverlay.PlanWrites` | scripts/p2-06-5-production/canonical-tag-translation-overlay.ts:375-448 | the planning loop computes the plan the fixpoint is about |
| `TranslationOverlay.OverlayStore.Apply` | scripts/p2-06-5-production/canonical-tag-translation-overlay.ts:521-566 | a known request is replayed or refused; otherwise it is applied if and only if every row's tag exists under the slug the row names, and then every planned translation has its planned name and no other one changed; in all other cases nothing is written |
| `LocaleBackfill.Backfill.Run` | scripts/l10n/backfill-source-item-locale.ts:258-312 | one pass visits every live row without a locale or with the legacy literal, or every live row when resolving again, exactly once in id order although its writes shrink its own filter; under apply each ends with its resolved locale and no other row changes; the change count is the number of visited rows whose resolved locale differs |
| `LocaleBackfill.Backfill.VisitPage` | scripts/l10n/backfill-source-item-locale.ts:263-311 | a page behind the cursor is the same in the table being rewritten as in the table the pass began with |
| `LocaleBackfill.Backfill.VisitRow` | scripts/l10n/backfill-source-item-locale.ts:285-310 | one row is counted and, under apply, rewritten exactly when its locale changes |
| `LocaleBackfill.QuerySame` | scripts/l10n/backfill-source-item-locale.ts:264-280 | behind the cursor the shrinking table answers a query as the original table did |
| `LocaleBackfill.SecondPassIdle` | scripts/l10n/backfill-source-item-locale.ts:297-309 | a second applied pass finds nothing to change |
| `LocaleBackfill.ReportAddsUp` | scripts/l10n/backfill-source-item-locale.ts:285-299 | per-code totals sum to the rows scanned, and both histograms of a code sum to its total |
| `LocaleBackfill.ReportInFull` | scripts/l10n/backfill-source-item-locale.ts:282-299 | every number of a report is a number of visited rows: the rows of a code, those whose stored and those whose resolved locale falls into a bucket, and those that change, per code and in all |
| `LocaleBackfill.VisitedIffTarget` | scripts/l10n/backfill-source-item-locale.ts:264-276 | a row is visited if and only if it was a live target when the pass began |
| `Histogram.BucketsSum` | scripts/l10n/backfill-source-item-locale.ts:205-208 | a histogram's buckets sum to the number of values counted |
| `CredentialTransactions.InterleavingsKeepConsistency` | worker/handlers/credential.ts:42-86 | however the statements of any number of validations and supersessions interleave, wait and abort, the committed tables are those of their commits one at a time: latched if and only if active, at most one active per account and type, `superseded` never left |
| `CredentialTransactions.CommitIsApply` | worker/handlers/credential.ts:42-54 | at its commit a transaction does what its event would do all at once, and is not one that would be refused |
| `CredentialTransactions.AloneCommits` | worker/handlers/credential.ts:42-54 | undisturbed, a transaction whose event can take effect runs to its commit |
| `CredentialLifecycle.CommitsKeepConsistency` | worker/handlers/credential.ts:42-54 | the same of any sequence of atomic commits |
| `CredentialLifecycle.ValidateTakesEffectIff` | worker/handlers/credential.ts:43-54 | a validation takes effect if and only if the credential is not superseded and, to become active, no other one is and its fingerprint is free; otherwise nothing changes |
| `CredentialLifecycle.EffectInFull` | worker/handlers/credential.ts:43-86 | a validation that takes effect sets `active`, `expired` or `invalid` by its verdict and the latch exactly for `active`; a supersession that does marks an active credential of the account and drops its latch; nothing else changes |
| `CredentialLifecycle.CredentialStore.CommitValidation` | worker/handlers/credential.ts:42-54 | the statements of the protected write: status by verdict, latched exactly when active, and no trace when a check or a unique index refuses |
| `CredentialLifecycle.CredentialStore.CommitSupersession` | worker/handlers/credential.ts:79-86 | only an active credential of the account is superseded, and its latch goes with it |

## Left out

- HTTP adapters, rate gates, credential decryption, JWT checks and digests: the upstream, the verdict of a JWT and the digests are parameters.
- Payload parsing, environment gates, feature flags, dry runs and audit rows: branches without a hard property. The `content_create` and expired exits of a batch end before anything is enumerated.
- Clocks and lifetimes: expiry, lease loss and staleness are events or booleans.
- `worker/handlers/promo-link-claim-system-hold.ts`: a credential failure ends the item before the protocol begins (`Exit`).
- Progress under unfair schedules: that a claim or delivery is ever attempted again is up to the scheduler.
- PromoLink rows are named by their idempotency key in place of a surrogate id; UUIDs are numbers in the order of their text.
- `ArticleBatch.EnumerateLeaves`: a child token is the pair it is a digest of, so its distinctness assumes a collision-free digest.
- `CatalogScan.CatalogTask.Scan`: pages run in ascending order and each is read once; a retried page counts only when it ends, and a page finished out of order, which can move the terminal page backwards, is not modelled.
- `CatalogFinalize.GenerationsOverRuns`: for fewer retries and recoveries than the largest safe integer; beyond it `BumpGrowsIff` says what happens.
- `PromoClaimSafety.AtMostOneCode`: under the operator rule, which `SecondCodeIff` shows to be exact.
- `PromoBinding.RunsPreserveBindings`: whole transactions; overlapping ones are in `PromoBindingRaces`, where a link's Novel is fixed and a transaction's row updates take effect at its commit.
- `CredentialTransactions`: a blocked statement waits or its transaction aborts; credential creation and replacement are written elsewhere and are not part of this model.
- `DroppedLabels.MergeOfMerges`: totals past the largest safe integer, where only the groups have an exact condition; sums so large that they overflow to infinity are not modelled.
- Source rows: every column other than the identity is one opaque value, so locale suspension (`pickBookSourceLocale`), label writes and the preview task a scan enqueues are not modelled.
- `buildSourceLabelWritePlan`, `seedScript`, `writeCanonicalPlan`, `buildMappingPlan`, `parseFilterForTaskType` and `deriveCatalogBatchPhase`: single-body functions and plain upserts that would only add easy members. `seedScript` and seed normalization are parameters of the plan.
- Which promo links count as ready for a novel is the row's own state; the resolver that decides it is not part of this model.
- Requests, sessions and permissions of the admin service, user interface, projections and one-off scripts.
