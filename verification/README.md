# Sanocea: recovery, ingestion and catalogue files

Dafny models of four parts of the Sanocea commerce runtime, with proofs about whole runs.
`dafny verify dfyconfig.toml` checks everything; nothing here runs the original program.

**Recovery.** A mutation sent to a supplier or payment provider may take effect and lose its
response. A worker (`workers/reconciliation_worker.py`), run for every merchant under one
advisory lock (`scripts/run_recovery_worker.py`), reads external truth and then closes,
adopts, retries or escalates. `Recovery` and `RefundRecovery` are the pass as functions,
together with the submission and execution it retries; `ReconciliationWorkers` and
`RecoveryRunners` are the classes that do it in place and are proved equal to those
functions; `RecoveryProtocol` is any number of runners interleaving step by step with
crashes. `RecoveryView` shows that a pass treats each purchase order independently, which
is what the theorems in `RecoveryGuarantees` rest on; `RecoveryOutcomes` says how an order
ends as a function of the supplier's answers to it alone. `RecoveryReport` and
`RefundExecution` say case by case, field by field and record by record what a pass, a
submission and a refund execution report and leave behind. Reads of external truth can fail
as well as requests: the worker's own, the fetch inside a reconciliation, and the read-back
after a timeout.

**The PDF catalogue.** `write_simple_pdf` (`scripts/run_phase11_simulation.py`) writes a PDF
by hand. `PdfWriter` is that writer; `PdfSyntax` and `PdfReader` are a reader written from
ISO 32000-1 (7.2, 7.3, 7.5.4, 7.5.5, 7.7.3, 9.4) that knows nothing of the writer: it starts
at `startxref`, reads 20-byte entries, seeks, parses objects, walks the page tree and
interprets the text operators. `PdfDocument` proves that the two undo each other.
`CatalogueText`, `Catalogue` and `CatalogueFile` are the printing and parsing of catalogue
rows, the folding of duplicate SKUs into a store, and the way from rows through the PDF to
stored drafts. `UploadCache` and `Workload` are the upload cache and the report counters.

**BigCommerce.** `Timestamps` is the comparison of modification times as texts,
`BigCommerce`, `BigCommerceDeliveries` and `BigCommerceGuarantees` the ingestion of order webhooks, `Publishing` the
upsert by SKU under lost responses, `PublishingRaces` several publishers at once,
`WebhookRegistration` the registration of hooks.

**Amazon.** `Amazon` is the order sync and the divergence check over one status table.

Bytes are characters below 256, so that ASCII text is its own encoding. Identifiers that
the source draws at random are drawn from a counter: only that they are new matters.
What the outside does (fates of requests, fetched snapshots, winning the lock, stop
signals) is a parameter, and every theorem holds for all of it.

## Where the code and its comments differ

The model follows the code; each of these is a theorem.

- A failed retry is said to leave one fresh open record (`workers/reconciliation_worker.py:125-127`).
  It does so exactly after a timeout that the supplier did not act on. After a 429 or 5xx, or when the order is
  not approved, the record is of another category or missing, the worker resolves the old
  ones, and the unsubmitted order drops out of recovery for good (`PassShapes`, `RefusalDropsOut`).
- Adopting external truth sets an order that is already past SUBMITTED back to SUBMITTED
  (`ProgressIsLostExactlyOnAdoption`).
- One order in doubt that is missing, or that would be retried but whose idempotency claim was
  abandoned by a crash, makes every pass of its merchant raise, for ever: no refund is looked at
  and no stale workflow is flagged any more (`StuckRaisesExactly`, `StuckOrderStopsTheMerchant`).
- The number of retries is said to be bounded. The read-back inside the timeout handler is not
  guarded (`packages/procurement/operations.py:573-574`): if it fails, the request went out
  and nothing is recorded, so the next pass sends another one. The bound holds for the
  recorded requests, and fails after enough of the others (`RequestsAreAccounted`,
  `PromisedBoundHoldsExactly`, `UnrecordedSendsAreUnlimited`).
- The stop flag is said to be checked between merchants (`scripts/run_recovery_worker.py:27-28`).
  It is read only between passes: a pass under way tries every merchant (`MerchantsAreIsolated`, `Loop`).
- The refund retry is said to be safe and bounded (`workers/reconciliation_worker.py:156-163`).
  It never does anything: `execute_refund` returns at once on a refund in doubt, and the
  worker looks for the refund without its reason, which is part of the provider's key. A paid
  refund with a reason stays in doubt for ever, below the limit (`StuckForever`,
  `LostRefundRecoversIffReasonEmpty`), and the counter of retried refunds stays zero
  (`RefundPassReport`). Where a refund is recovered, one of the two doubts its
  execution recorded stays open for ever (`OneDoubtStaysOpen`).
- The stale-event test compares texts. An event of the same moment counts as stale or not
  by the spelling of UTC, and an earlier event of the same second can win (`StaleExactly`).
- When an order webhook fails after the order was written, its retry loses the missing lines
  or stores all lines again (`RetryAfterFailure`); every accepted update appends all lines
  (`LinesAddUp`).
- The BigCommerce divergence check takes a missing status for UNKNOWN, the ingestion for
  PENDING or the status before (`ReconcileAfterDelivery`). The Amazon check does not see
  fulfilment (`FulfilmentDriftIsInvisible`, `DriftExistsExactly`).
- An update refreshes the status of an order but never its total or currency, in either
  connector (`FirstTotalStays`, `TakenOrder`).
- The catalogue parser reads an I between spaces as a bar, so that a row with one does not
  read back (`RowReadsBack`).

## Model

| member | source | states |
|---|---|---|
| `RecoveryView.OpenIdsExact` | workers/reconciliation_worker.py:81-88 | The groups of a pass are the non-empty ids with an open uncertain record, each once. |
| `RecoveryView.HandleOwn` | workers/reconciliation_worker.py:90-130 | What handling one order does to everything that concerns it (state, attempts, open records, claim, supplier), whatever else the store holds. |
| `RecoveryView.HandleOthers` | workers/reconciliation_worker.py:90-130 | Handling one order changes nothing that concerns another. |
| `RecoveryView.PassView` | workers/reconciliation_worker.py:80-130 | A pass moves every order it reaches by its own step and leaves the others; without a raise it reaches every group, and it raises exactly when some group's own step raises. |
| `RecoveryGuarantees.PassShapes` | workers/reconciliation_worker.py:81-130 | An order that a pass handled, whether or not the pass raised behind it, is settled, exhausted, pending or dropped, each with its exact condition on the state before and the supplier's answer; dropped is the case the comment does not foresee. |
| `RecoveryGuarantees.PendingIsFresh` | packages/procurement/operations.py:573-586 | A step that leaves an order pending, whatever it was before, cost it one request and one attempt. |
| `RecoveryGuarantees.PendingRecordIsNew` | workers/reconciliation_worker.py:124-130 | An order that a pass handled and left pending has exactly one open record, and this pass appended it. |
| `RecoveryGuarantees.ClosedForever` | workers/reconciliation_worker.py:81-88 | An order without open records is never touched again by any number of passes. |
| `RecoveryGuarantees.RequestsAreAccounted` | packages/procurement/operations.py:569-596 | Over any run of passes and outside changes, and every behaviour of the supplier, each request cost an attempt, or went unrecorded because its read-back failed, or closed the doubt, which happens at most once. |
| `RecoveryGuarantees.RetriesAreBounded` | workers/reconciliation_worker.py:100-105 | Over any such run at most the limit minus the initial records requests go out for an order, and one more for each unrecorded one. |
| `RecoveryOutcomes.RequestsAreDrawn` | workers/reconciliation_worker.py:100-120 | How many requests go out for an order is a function of its attempts left and the supplier's answers to it. |
| `RecoveryOutcomes.PromisedBoundHoldsExactly` | workers/reconciliation_worker.py:100-105 | A run of passes keeps the promised bound if and only if the order is not to be sent or its answers draw no more requests than it has attempts left. |
| `RecoveryOutcomes.ClearRoundsKeepTheBound` | workers/reconciliation_worker.py:100-105 | In a sound world whose reads get through it always does, with the exact number of requests. |
| `RecoveryGuarantees.UnrecordedSendsAreUnlimited` | packages/procurement/operations.py:573-574 | While requests are lost and read-backs fail, every pass sends one more and spends no attempt. |
| `RecoveryGuarantees.SixRequestsForFourAttempts` | packages/procurement/operations.py:573-574 | A concrete run that breaks the promised bound. |
| `RecoveryGuarantees.RequestsFollowATruthRead` | workers/reconciliation_worker.py:106-119 | A pass sends one request for an order exactly when it reaches it, the order is to be sent, and external truth was read and showed nothing; it never makes the supplier hold a second order. |
| `RecoveryGuarantees.RaisesExactly` | workers/reconciliation_worker.py:90-130 | A pass raises exactly when an order is stuck (missing, or to be sent and unable to) or a read it makes of the supplier fails. |
| `RecoveryGuarantees.SoundPasses` | workers/reconciliation_worker.py:90-130 | With a supplier, no abandoned claim and no dangling record, a pass raises exactly when a read fails, and leaves the world so. |
| `RecoveryOutcomes.RunsAlone` | workers/reconciliation_worker.py:80-130 | What any run makes of an order depends only on the answers of the rounds that reached it. |
| `RecoveryOutcomes.StepTowardsDestiny` | workers/reconciliation_worker.py:93-130 | Each step makes an order final as foretold, or is not heard of, or uses up one attempt, or leaves it at the supplier unseen. |
| `RecoveryOutcomes.OrdersMeetTheirDestiny` | workers/reconciliation_worker.py:80-130 | Over any run with any failing reads, an order in doubt that has become final is settled, dropped or exhausted as told by the answers heard, and it is final once one more was heard than attempts were left. |
| `RecoveryOutcomes.ShapeIsDecided` | workers/reconciliation_worker.py:80-130 | In a sound world whose reads get through: settled if the first answer other than a lost request comes within the attempts left and took effect, dropped if it was a refusal, exhausted if there is none. |
| `RecoveryOutcomes.Converges` | workers/reconciliation_worker.py:80-130 | Whenever an order in doubt is final, it is submitted or escalated unless and only unless it was not to be submitted or was refused in time; and it is final once one more answer was heard than attempts were left. |
| `RecoveryOutcomes.ConvergesWithinTheLimit` | workers/reconciliation_worker.py:59-62 | In a sound world whose reads get through a positive limit of passes is always enough, with the same exact condition. |
| `RecoveryOutcomes.StaysFinal` | workers/reconciliation_worker.py:93-105 | A settled, exhausted or dropped order never changes again. |
| `RecoveryGuarantees.StuckRaisesForEver` | packages/idempotency/service.py:18-35 | After any passes, the next one raises exactly when some order was stuck from the beginning or a read fails now. |
| `RecoveryGuarantees.StuckRaisesExactly` | packages/idempotency/service.py:18-35 | With reads that get through, every later pass raises if and only if some order is stuck now, wherever it stands among the groups. |
| `RecoveryGuarantees.OneAbandonedClaimIsEnough` | packages/idempotency/service.py:18-35 | A concrete world in which every pass raises. |
| `RecoveryGuarantees.OneRaiserBlocksTheMerchant` | packages/idempotency/service.py:18-35 | If the first group is stuck, nothing at all changes any more. |
| `MerchantRecovery.StuckOrderStopsTheMerchant` | workers/reconciliation_worker.py:71-76 | Behind a stuck order every run raises in the order stage: refunds, the payment provider and workflow flags stay as they are for ever. |
| `RecoveryGuarantees.RefusalDropsOut` | packages/procurement/operations.py:587-590 | After a 429 or 5xx on its retry, in a pass that may raise elsewhere, an approved order is never looked at again, below the limit. |
| `RecoveryGuarantees.OneRefusalIsEnough` | packages/procurement/operations.py:587-590 | A concrete world in which that happens. |
| `RecoveryGuarantees.ProgressIsLostExactlyOnAdoption` | workers/reconciliation_worker.py:106-116 | Through any pass an order past SUBMITTED keeps its state, except when the pass reaches it below the limit and reads that the supplier holds the order; then it falls back to SUBMITTED. |
| `RecoveryGuarantees.OneConfirmedOrderFallsBack` | workers/reconciliation_worker.py:106-116 | A concrete world in which that happens. |
| `RecoveryGuarantees.CountersPartitionTheGroups` | workers/reconciliation_worker.py:90-130 | The sums of a pass that does not raise: the four outcomes add up to the groups and scanned to their open records; what each counter counts is `OrderPassReport`. |
| `RecoveryReport.OrderPassReport` | workers/reconciliation_worker.py:90-130 | For every pass, over the groups up to the first that raises: escalated are exactly those not SUBMITTED at the limit, reconciled those SUBMITTED and those below it that the supplier holds, retried those the retry submits and left open those it does not; scanned are all their open records, and the pass raises exactly when one of them fails. |
| `RecoveryReport.StandingIsOutcome` | workers/reconciliation_worker.py:90-130 | The group is counted as escalated, left open, or reconciled or retried exactly when the pass leaves it exhausted, pending or dropped, or settled. |
| `RecoveryReport.OrderPassLog` | workers/reconciliation_worker.py:96-130 | The whole log after a pass: of the groups reached, open records are resolved, or critical at the limit, or stay where the group raises; all others stay; one record is added for each retry that reached the supplier and did not submit, by the category of the answer. |
| `RecoveryReport.HandledOrder` | workers/reconciliation_worker.py:93-123 | Where a handled order stands with the supplier: its reference, its claim, what is held and what was sent, for every case. |
| `RecoveryReport.SubmissionSays` | packages/procurement/operations.py:550-596 | A submission that sends its request, whatever the supplier holds: its answer, and the order, claim, record and supplier after it, for each answer of the supplier. |
| `RecoveryReport.AttemptsAreRecords` | workers/reconciliation_worker.py:190-191 | Attempts are the number of uncertain records of the id in whatever status, and a group has those still open. |
| `RecoveryProtocol.StepKeepsSafe` | scripts/run_recovery_worker.py:54-57 | Every single step of every runner, crashes and lost messages included, keeps mutual exclusion, at most one order, and what the lock holder knows of the supplier. |
| `RecoveryProtocol.AlwaysSafe` | scripts/run_recovery_worker.py:54-57 | So does every execution of any number of runners. |
| `RecoveryProtocol.SafeFromTheStart` | workers/reconciliation_worker.py:106-130 | From a start in which the supplier holds at most one order per id, it never holds two, even if it does not deduplicate, and one runner at most holds the lock. |
| `RecoveryProtocol.WithoutTheLockOrdersDouble` | packages/domain_contract/store.py:66-76 | Without exclusion two runners can order twice: a concrete execution. |
| `RecoveryProtocol.HandleRefines` | workers/reconciliation_worker.py:90-130 | What the worker does to an order in one go is an execution of the protocol's separate steps. |
| `RecoveryProtocol.PassRefines` | workers/reconciliation_worker.py:80-130 | So is a whole pass, up to its end or the order it raises at: the protocol's safety covers the worker as written. |
| `RefundGuarantees.AtTheLimitEscalates` | workers/reconciliation_worker.py:138-144 | At the limit only the refund's first open record changes: it becomes critical and is left to a human. |
| `RefundExecution.NewRefundIsPaid` | packages/post_order/operations.py:1295-1328 | A refund the provider accepts, or takes without its response arriving: one new entry under its key, a claim naming it exactly on an answer, completed if the provider can be read, confirmed externally and raising if not, in doubt with two records if the read-back fails. |
| `RefundExecution.NewRefundIsNotPaid` | packages/post_order/operations.py:1299-1320 | A refund whose request is lost or refused: provider and claims unchanged, one record by the category of the answer; permitted again if the read-back gets through, else in doubt with a second record. |
| `RefundExecution.KnownRefundIsNotPaidAgain` | connectors/payments/simulated.py:53-56 | A refund the provider has already paid is not paid again, whatever the request meets, and is completed whenever the reads get through. |
| `RefundExecution.ClaimAnswers` | packages/idempotency/service.py:18-35 | Under a claim no request goes out: a completed one is reconciled with the refund it names, completed or recorded as a mismatch; an abandoned one, or one that names nothing, raises. |
| `RefundExecution.NotExecuted` | packages/post_order/operations.py:1275-1282 | Without a connector execution raises, and in any status but permitted and approved it returns the refund; neither changes anything. |
| `RefundExecution.AdoptionIsExact` | workers/reconciliation_worker.py:149-155 | What adoption leaves: the refund completed, or a mismatch recorded if it did not succeed; its first open record resolved, every other record as it was. |
| `RefundExecution.RefundPassReport` | workers/reconciliation_worker.py:134-164 | What the refund pass reports, over the refunds in doubt up to the first that fails: escalated are those at the limit with an open record, reconciled those held under the empty reason, left open the rest below the limit, retried none ever. |
| `RefundExecution.DoubtsAreRecords` | workers/reconciliation_worker.py:190-191 | Attempts of a refund are the number of its doubt records in whatever status. |
| `RefundGuarantees.RefundPassExact` | workers/reconciliation_worker.py:134-164 | The exact effect of a pass on each refund, with or without a payment connector: it raises exactly when a refund in doubt below the limit meets a provider that is missing or cannot be read; up to there a refund is completed exactly when below the limit the provider holds a succeeded one under the empty reason, and one open record is closed exactly on adoption. |
| `RefundGuarantees.StuckForever` | workers/reconciliation_worker.py:145-164 | A refund the worker's read does not find, or one at the limit, stays in doubt with the same attempts through any number of passes: the retry does nothing. |
| `RefundGuarantees.LostRefundRecoversIffReasonEmpty` | connectors/payments/simulated.py:73-79 | A paid refund whose response was lost is completed by a pass if and only if its reason was empty, attempts are left, and the pass gets to it; with a reason, or at the limit, it is in doubt for ever. |
| `RefundGuarantees.OneRefundIsStuck` | connectors/payments/simulated.py:73-79 | A concrete refund under the default reason that is. |
| `RefundGuarantees.OneDoubtStaysOpen` | workers/reconciliation_worker.py:149-155 | Even when it is completed, one of its two open records stays open through any later passes. |
| `RefundGuarantees.OthersAreForgotten` | workers/reconciliation_worker.py:134-135 | A refund that is not in doubt, and its records, are never touched by any number of passes. |
| `RefundGuarantees.ExecuteKeepsKeysUnique` | connectors/payments/simulated.py:53-56 | However execution ends, the provider holds at most one refund per order, amount, currency and reason. |
| `StaleWorkflows.FlagsExactly` | workers/reconciliation_worker.py:168-186 | After the stage each stale running workflow has an open flag, nothing else is flagged, and nothing is flagged twice. |
| `StaleWorkflows.FlagsSay` | workers/reconciliation_worker.py:181-186 | The stage only appends, and everything it appends is an open warning about a running workflow not updated since the cutoff, with the three remedies. |
| `StaleWorkflows.FlagsAreOpenRecords` | workers/reconciliation_worker.py:175-178 | A workflow counts as flagged exactly when an open record of the category names it. |
| `StaleWorkflows.FlaggingIsIdempotent` | workers/reconciliation_worker.py:175-180 | Flagging again with the same or an earlier cutoff adds nothing. |
| `MerchantRecovery.RunOnceForOrders` | workers/reconciliation_worker.py:71-76 | For purchase orders a whole run is the order pass: the later stages do not disturb it. |
| `MerchantRecovery.RunOnceForRefunds` | workers/reconciliation_worker.py:71-76 | For refunds a run is the refund pass, with or without a payment connector, unless the order stage or an earlier refund raised; when the run raises, exactly. |
| `MerchantRecovery.RunReports` | workers/reconciliation_worker.py:71-76 | The counters of a run are field by field those of its stages up to the one that raises, flags counted by the records added, and the store is what the last stage left. |
| `ReconciliationWorkers.ReconciliationWorker.AttemptCount` | workers/reconciliation_worker.py:190-191 | Counts the records of an object, whatever their status. |
| `ReconciliationWorkers.ReconciliationWorker.GroupOpenRecords` | workers/reconciliation_worker.py:85-88 | The grouping dictionary: keys in insertion order, each with all its open records. |
| `ReconciliationWorkers.ReconciliationWorker.ResolveGroup` | workers/reconciliation_worker.py:96-97 | Closes exactly the group's records. |
| `ReconciliationWorkers.ReconciliationWorker.EscalateGroup` | workers/reconciliation_worker.py:102-103 | Makes exactly the group's records critical. |
| `ReconciliationWorkers.ReconciliationWorker.SubmitPurchaseOrder` | packages/procurement/operations.py:550-596 | The submission, in place, with the claim it takes and gives back. |
| `ReconciliationWorkers.ReconciliationWorker.RecoverPurchaseOrder` | workers/reconciliation_worker.py:92-130 | One turn of the loop, in place, is the specified handling of the order. |
| `ReconciliationWorkers.ReconciliationWorker.ExecuteRefund` | packages/post_order/operations.py:1274-1328 | The execution of a refund, in place, is the function whose effect `RefundExecution` states case by case. |
| `ReconciliationWorkers.ReconciliationWorker.RecoverRefund` | workers/reconciliation_worker.py:137-164 | One turn of the refund loop, in place, is the specified handling of the refund. |
| `ReconciliationWorkers.ReconciliationWorker.RecoverUncertainPoSubmissions` | workers/reconciliation_worker.py:80-130 | The order stage, in place, is the pass whose counters and log `OrderPassReport` and `OrderPassLog` state, raising included. |
| `ReconciliationWorkers.ReconciliationWorker.RecoverUncertainRefundExecutions` | workers/reconciliation_worker.py:134-164 | The refund stage, in place, is the specified pass. |
| `ReconciliationWorkers.ReconciliationWorker.FlagStaleWorkflows` | workers/reconciliation_worker.py:168-186 | The stale stage, in place, appends the specified flags and counts them. |
| `ReconciliationWorkers.ReconciliationWorker.RunOnce` | workers/reconciliation_worker.py:71-76 | The three stages in order, stopping where one raises. |
| `RunnerPass.MerchantsAreIsolated` | scripts/run_recovery_worker.py:62-74 | Every merchant is run once from its own state whatever the others raised; the totals are the sums over those that succeeded. |
| `RunnerPass.FailuresWitnessed` | scripts/run_recovery_worker.py:72-74 | A failure is counted exactly when some merchant's own run raised. |
| `RunnerPass.ExitCodeReportsFailure` | scripts/run_recovery_worker.py:47-76 | With the lock held elsewhere no merchant changes and the code is 0; with the lock each merchant listed ends as its own run says, the others stay, and the code is 1 exactly when some merchant raised. |
| `RunnerPass.PassesAreIsolated` | scripts/run_recovery_worker.py:113-126 | Over any number of passes each merchant is moved only by its own runs in the passes that won the lock, and the code is 1 exactly when the last pass won it and some merchant raised. |
| `RecoveryRunners.RecoveryRunner.RunAll` | scripts/run_recovery_worker.py:62-76 | The loop over merchants, in place. |
| `RecoveryRunners.RecoveryRunner.RunSinglePass` | scripts/run_recovery_worker.py:47-78 | One pass, in place: nothing changes without the lock; with it every merchant listed ends as `RunOnce` says; the code tells exactly whether one raised. |
| `RecoveryRunners.RecoveryRunner.Loop` | scripts/run_recovery_worker.py:113-126 | Loop mode runs at most max(1, bound) passes, never starts one after the stop flag, stops only for one of the two reasons, moves each merchant by its own runs under the lock, and returns the last pass's code. |
| `PdfStrings.EscapeIsPerCharacter` | scripts/run_phase11_simulation.py:417-418 | The three sequential replacements are one map over the characters. |
| `PdfStrings.EscapedReadsBack` | scripts/run_phase11_simulation.py:417-418 | An escaped text between parentheses reads, by 7.3.4.2, as its bytes with end-of-line markers normalised, and reading ends at the closing parenthesis. |
| `PdfStrings.ReadsBackExactly` | scripts/run_phase11_simulation.py:417-418 | Decoding gives the normalised text, which is the text exactly when it has no carriage return. |
| `PdfContent.StreamIsBlocks` | scripts/run_phase11_simulation.py:425-431 | The joined operators are the opening, one block per line, and the end. |
| `PdfContent.StreamShowsLines` | scripts/run_phase11_simulation.py:424-431 | Interpreting a page's stream shows each line once, in order, from (50, 790) down by 26. |
| `PdfObjects.ReadsBack` | scripts/run_phase11_simulation.py:434-441 | A printed indirect object reads as the object, whatever follows its closing keyword. |
| `PdfPages.PageText` | scripts/run_phase11_simulation.py:435-435 | A page object's text is the print of its dictionary. |
| `PdfPages.PagesText` | scripts/run_phase11_simulation.py:439-439 | The page tree node's text is the print of a dictionary with all pages as kids and their number as count. |
| `PdfPages.StreamText` | scripts/run_phase11_simulation.py:434-434 | A content object is the print of its length dictionary and the stream between its markers. |
| `PdfTable.EndOfIsLength` | scripts/run_phase11_simulation.py:443-449 | The running byte count is the encoded length of everything emitted so far. |
| `PdfTable.XrefReads` | scripts/run_phase11_simulation.py:450-452 | The table reads, in 20-byte entries, as the offsets, exactly when every offset has at most ten digits. |
| `PdfTable.StartXrefReads` | scripts/run_phase11_simulation.py:453-453 | The last `startxref` gives the offset it was written with. |
| `PdfTable.TrailerReads` | scripts/run_phase11_simulation.py:453-453 | The trailer reads as its size and root. |
| `PdfDocument.FitsIffLastFits` | scripts/run_phase11_simulation.py:445-452 | All offsets fit ten digits exactly when the last object's does. |
| `PdfDocument.SeekLandsOnHead` | scripts/run_phase11_simulation.py:443-452 | Seeking to entry k lands on the bytes `k 0 obj`, for every k from 1 to the last. |
| `PdfDocument.TableReadsBack` | scripts/run_phase11_simulation.py:443-454 | From `startxref` the reader finds the whole table and the trailer, exactly when all offsets fit. |
| `PdfDocument.StreamReads` | scripts/run_phase11_simulation.py:434-434 | The length is the number of bytes between the stream's markers. |
| `PdfDocument.WalksAllPages` | scripts/run_phase11_simulation.py:432-441 | From the root the reader reaches every page once, in order, each with its parent, font, box and own content; the count agrees. |
| `PdfDocument.FileReadsBack` | scripts/run_phase11_simulation.py:416-454 | For every list of lines, reading the written file gives one page for every 28 lines showing exactly those lines; it fails exactly when an offset does not fit. |
| `PdfDocument.LineBytesReadBack` | scripts/run_phase11_simulation.py:416-454 | Each shown string has the bytes of its line, end-of-line markers normalised; for ASCII lines without carriage returns these are its characters. |
| `PdfDocument.LinesReadBack` | scripts/run_phase11_simulation.py:416-454 | The strings of all pages in order, decoded as UTF-8, are the lines, end-of-line markers normalised. |
| `PdfDocument.LinesAreKept` | scripts/run_phase11_simulation.py:416-454 | Decoded as UTF-8 they are the very lines exactly when no line has a carriage return. |
| `PdfDocument.BaselinesOnThePage` | scripts/run_phase11_simulation.py:425-429 | Every baseline lies between 88 and 790. |
| `PdfDocument.LineIsAt` | scripts/run_phase11_simulation.py:421-431 | Line j of the input is string j mod 28 of page j div 28, at x 50 and 26 lower than the one before, on a page of 612 by 792; there are as many pages as 28 lines each need. |
| `PdfDocument.FileIsFramed` | scripts/run_phase11_simulation.py:442-454 | The file begins with the version of the format and ends with the end-of-file mark. |
| `PdfWriter.PageStream` | scripts/run_phase11_simulation.py:425-431 | The loop over a page's lines. |
| `PdfWriter.MakePages` | scripts/run_phase11_simulation.py:420-436 | The loop over chunks of 28 lines, with its object numbers. |
| `PdfWriter.NoteOffsets` | scripts/run_phase11_simulation.py:442-448 | The running offsets. |
| `PdfWriter.WriteSimplePdf` | scripts/run_phase11_simulation.py:416-454 | The writer with its loops produces the document of the theorems. |
| `CatalogueText.RowReadsBack` | scripts/run_phase11_simulation.py:410-412 | A tidy row's printed line parses back to its fields exactly when it has the product mark and no I alone between spaces. |
| `CatalogueText.LoneICutsAField` | scripts/run_phase11_simulation.py:866-867 | Such an I always cuts the field it stands in short. |
| `CatalogueText.PriceReadsBack` | scripts/run_phase11_simulation.py:870-876 | A printed natural price reads back a hundredfold. |
| `CatalogueText.SplitLinesReadsBack` | scripts/run_phase11_simulation.py:862-862 | Lines without line breaks come back from `splitlines`. |
| `CatalogueText.SpacesAndBreaks` | scripts/run_phase11_simulation.py:862-868 | The characters that `splitlines` breaks at and `strip` takes off, each of them. |
| `CatalogueText.AcceptedExactly` | scripts/run_phase11_simulation.py:863-869 | A line is accepted exactly when it has a bar and the product mark and at least six bars once full-width bars and lone letters I count as bars. |
| `Catalogue.FoldsToExpected` | scripts/run_phase11_simulation.py:860-916 | From an empty store: at most one draft per SKU, with the fields of its last line, the identity of its first, evidence and facts of all in order; lines without a SKU make one draft each. |
| `Catalogue.MarkedIffTwice` | scripts/run_phase11_simulation.py:907-911 | A SKU is stored exactly when some line has it, and marked as duplicate exactly when two lines have it. |
| `Catalogue.DraftSays` | scripts/run_phase11_simulation.py:871-913 | The stored draft of a SKU, field by field, from its accepted lines: plain fields of the last, the mark from the second on, the evidence texts of all, and all facts in order. |
| `Catalogue.FactsSay` | scripts/run_phase11_simulation.py:883-906 | The ten facts of a line, each with its name, text, line and confidence. |
| `Catalogue.KindOfProduct` | scripts/run_phase11_simulation.py:919-929 | The kind of a product by the first of the four words its title contains, in any case. |
| `Catalogue.SnapshotsSay` | scripts/run_phase11_simulation.py:914-916 | The k-th draft returned is the one stored for the k-th accepted line, as the lines up to it make it. |
| `Catalogue.DraftStore.FindOne` | packages/domain_contract/store.py:487-493 | The first row with the SKU, in place. |
| `Catalogue.DraftStore.Put` | packages/domain_contract/store.py:95-112 | Replaces the row of the same id or appends, in place. |
| `Catalogue.DraftStore.PdfTextToDrafts` | scripts/run_phase11_simulation.py:860-916 | The loop over lines with its store puts is the fold over the accepted lines, and returns each draft as it was stored. |
| `CatalogueFile.CatalogueReadsBack` | scripts/run_phase11_simulation.py:410-413 | Rows written as a PDF, read by ISO 32000-1 and parsed give one accepted line for each row. |
| `CatalogueFile.CatalogueIsStored` | scripts/run_phase11_simulation.py:860-916 | And the stored draft of a SKU has the fields of its last row, its price a hundredfold, and the mark exactly when an earlier row has the SKU. |
| `UploadCache.RunIsAccounted` | scripts/run_phase11_simulation.py:178-204 | Over any run no key is uploaded twice; uploads, avoided and raised calls add up; the cache grows by the uploads and keeps their answers; bytes are those of the uploads. |
| `UploadCache.CallIsAnswered` | scripts/run_phase11_simulation.py:183-204 | What a call is answered after any run: the saved entry, else the answer of the first upload of its key, else what the storage answers now. |
| `UploadCache.KeyIsInjective` | scripts/run_phase11_simulation.py:182-182 | Keys of merchants without a colon determine merchant, key and checksum. |
| `UploadCache.MerchantsCollideExactly` | scripts/run_phase11_simulation.py:182-182 | Two merchants can share a key exactly when one name continues the other behind a colon. |
| `UploadCache.InstrumentedStorage.PutObject` | scripts/run_phase11_simulation.py:178-204 | The cache and counters, in place. |
| `Workload.ProcessProducts` | scripts/run_phase11_simulation.py:608-666 | Each counter is the number of drafts with that fate, approvals the number that asked for one; corrective, attempts and failures add up to the drafts; duplicates are the named drafts beyond the distinct SKUs. |
| `Workload.FatesAreExact` | scripts/run_phase11_simulation.py:617-662 | Each fate of a draft, and whether it asks for approval, by its image, validation, policy decision, states and publication. |
| `Workload.WrongImageIs` | scripts/run_phase11_simulation.py:614-622 | An image is wrong exactly when its file name says OTHER and lacks the SKU. |
| `Workload.BaseNameIsLast` | scripts/run_phase11_simulation.py:615-616 | The file name is the last component of the path; empty components and single dots do not count. |
| `Workload.ProcessOrders` | scripts/run_phase11_simulation.py:687-711 | Monitored are exactly the paid orders, delayed the others. |
| `Workload.ProcessConversations` | scripts/run_phase11_simulation.py:716-741 | Each counter is the number of conversations handled that way. |
| `Workload.RunWorkload` | scripts/run_phase11_simulation.py:766-770 | Of all operations the automation rate is exactly the share of verified drafts, paid orders and automatic conversations, the approval rate that of drafts and conversations that asked for approval, the corrective rate that of prevented or unvalidated drafts, unpaid orders and escalated conversations; all lie between zero and one. |
| `Timestamps.HeadsCompare` | connectors/bigcommerce/connector.py:245-245 | Texts of date and time compare as the seconds they name. |
| `Timestamps.StaleExactly` | connectors/bigcommerce/connector.py:245-250 | What the text comparison decides for every UTC stamp of any fraction width, exactly. |
| `Timestamps.WholeSecondsCompare` | connectors/bigcommerce/connector.py:245-250 | For whole seconds it is the order of moments, equal ones counting as stale exactly when spelled +00:00. |
| `Timestamps.HeadSays` | connectors/bigcommerce/connector.py:245-245 | The text of a date and time, digit by digit. |
| `Timestamps.StoredTimeSays` | connectors/bigcommerce/connector.py:245-245 | A stored time is its date and time, six digits of a fraction if there is one, and the UTC offset. |
| `BigCommerce.IngestKeeps` | connectors/bigcommerce/connector.py:171-201 | No delivery forgets a result, moves a mapping or drops an order or line, whether it raises or not. |
| `BigCommerce.RedeliveryIsInert` | connectors/bigcommerce/connector.py:181-201 | A delivery accepted once changes nothing when it comes again at any later time, and gets the first result, flagged. |
| `BigCommerce.MappingIsForever` | connectors/bigcommerce/connector.py:279-284 | Once mapped, by a delivery that finished or one that raised, an external id keeps one canonical order in every run, and no other id gets it. |
| `BigCommerce.BigCommerceConnector.PutLines` | connectors/bigcommerce/connector.py:285-292 | The loop over products, in place, ending where one raises; what the lines say is `NewLinesSay`. |
| `BigCommerce.BigCommerceConnector.UpsertOrder` | connectors/bigcommerce/connector.py:220-293 | The upsert, in place, with what stays written when it raises. |
| `BigCommerce.BigCommerceConnector.IngestWebhook` | connectors/bigcommerce/connector.py:171-201 | Ingestion with its claim, in place, is the function whose order, lines, customer and answer `BigCommerceDeliveries` states. |
| `BigCommerce.BigCommerceConnector.ReconcileOrder` | connectors/bigcommerce/connector.py:418-442 | The divergence check, in place. |
| `BigCommerceDeliveries.NewLinesSay` | connectors/bigcommerce/connector.py:285-292 | The lines a taken delivery adds behind those of its order: one for each product up to the first that raises, each with the order's id, the product's SKU, title or Untitled, quantity and unit amount, and the delivery's payload. |
| `BigCommerceDeliveries.TakenOrder` | connectors/bigcommerce/connector.py:252-278 | Every field of the order after a taken delivery: a new order's with the connector's defaults; an order that was there keeps channel, customer, number, total, currency and fulfilment. |
| `BigCommerceDeliveries.CustomersAndMappings` | connectors/bigcommerce/connector.py:222-235 | A customer is made exactly for a new email, even if the delivery is stale or raises; a mapping exactly by a delivery that is taken, to an id not used before. |
| `BigCommerceDeliveries.DeliveryIsAnswered` | connectors/bigcommerce/connector.py:185-201 | When a delivery is accepted, exactly; the order and status it is answered; and that exactly the accepted ones are remembered under topic and delivery id. |
| `BigCommerceDeliveries.CheckIsExact` | connectors/bigcommerce/connector.py:418-442 | The divergence check for any order and status: it reports exactly a difference, with both statuses, a missing one standing for UNKNOWN. |
| `BigCommerceGuarantees.IngestEffect` | connectors/bigcommerce/connector.py:239-292 | What one delivery does to each order: others untouched; its own shows the snapshot and gets its lines exactly when it is new, fetched and not stale. |
| `BigCommerceGuarantees.RefsAreKept` | connectors/bigcommerce/connector.py:267-269 | An order keeps exactly one reference of this connector and all of other systems. |
| `BigCommerceGuarantees.ReconcileAfterDelivery` | connectors/bigcommerce/connector.py:424-426 | Against the snapshot just brought the check reports exactly when that has no status and the order's is not UNKNOWN. |
| `BigCommerceGuarantees.TimeGoesBackExactly` | connectors/bigcommerce/connector.py:245-277 | The stored modification time goes back in exactly one case: an earlier moment of the same second spelled with Z. |
| `BigCommerceGuarantees.TimeDoesGoBack` | connectors/bigcommerce/connector.py:245-277 | Two concrete deliveries that move it back. |
| `BigCommerceGuarantees.TimeNeverGoesBack` | connectors/bigcommerce/connector.py:245-277 | With whole seconds it never does, in any run. |
| `BigCommerceGuarantees.LinesAddUp` | connectors/bigcommerce/connector.py:285-292 | Over any run an order's lines are, in order, the lines of all deliveries taken; stale ones and replays add none, and none is ever replaced. |
| `BigCommerceGuarantees.TakenAtMostOnce` | connectors/bigcommerce/connector.py:195-195 | A clean delivery is taken at most once in any run. |
| `BigCommerceGuarantees.RetryAfterFailure` | connectors/bigcommerce/connector.py:185-195 | How many lines a retry leaves after a failure behind the write, for every order, stamp and number of lines before, and exactly when that is the right number. |
| `BigCommerceGuarantees.RetryDoesGoWrong` | connectors/bigcommerce/connector.py:285-292 | Two concrete deliveries that leave one line of two, or three. |
| `BigCommerceGuarantees.LatestWins` | connectors/bigcommerce/connector.py:239-278 | After any run of coherent deliveries every order shows the latest snapshot delivered for it. |
| `BigCommerceGuarantees.OrderOfDeliveriesIsIrrelevant` | connectors/bigcommerce/connector.py:239-278 | Runs of the same deliveries in any order and repetition, finishing or raising behind the write, end with the same status, payment status and time. |
| `BigCommerceGuarantees.MissingStatusDependsOnOrder` | connectors/bigcommerce/connector.py:252-265 | With a snapshot without a status the order of deliveries decides: the earlier status stays, or the order is PENDING for good. |
| `BigCommerceGuarantees.MissingTotalDependsOnOrder` | connectors/bigcommerce/connector.py:252-265 | So it does with a total that cannot be converted, which only a new order needs. |
| `BigCommerceGuarantees.TieIsDecidedBySpelling` | connectors/bigcommerce/connector.py:245-250 | Two different snapshots of one moment: with Z the later delivery decides, with +00:00 the earlier. |
| `Publishing.Publisher.FindProductBySku` | connectors/bigcommerce/connector.py:389-392 | The first product of the SKU. |
| `Publishing.Publisher.ExecuteMutation` | connectors/bigcommerce/connector.py:334-354 | The publish branch, in place, with what stays when a call raises. |
| `Publishing.Publisher.PublishProduct` | packages/connector_sdk/base.py:147-170 | The branch behind its idempotency key. |
| `Publishing.PublishingKeepsSkus` | connectors/bigcommerce/connector.py:334-354 | Whatever answers are lost and repeated: one product per SKU, its id fixed, its payload that of the last write. |
| `Publishing.CallIsAnswered` | packages/connector_sdk/base.py:147-170 | A known key gets its remembered id and changes nothing; else an answered call gets the id of the product it wrote, and exactly those are remembered, by action and key. |
| `Publishing.AnsweredOnce` | packages/connector_sdk/base.py:147-170 | Once answered, a request is answered with the same id after any later calls, and publishes nothing any more. |
| `Publishing.OtherSkusAreUntouched` | connectors/bigcommerce/connector.py:334-354 | Products no call names stay as they are. |
| `Publishing.RetriesAreInvisible` | connectors/bigcommerce/connector.py:334-354 | Repeating a request until it is answered ends in the very world and result of one answered call. |
| `PublishingRaces.PublishIsTwoSteps` | connectors/bigcommerce/connector.py:340-354 | A publication is a look-up step followed by a write step. |
| `PublishingRaces.DistinctExactly` | connectors/bigcommerce/connector.py:340-352 | Over every execution of any number of publishers SKUs stay distinct if and only if no write creates a SKU that was created since its look-up. |
| `PublishingRaces.DisciplineIsEnough` | connectors/bigcommerce/connector.py:340-352 | They do whenever no two look-ups of an absent SKU are pending at once. |
| `PublishingRaces.TwinsAreTheCondition` | connectors/bigcommerce/connector.py:340-352 | The pending writes are safe in every order and with every fate if and only if no two of them looked up one SKU and found nothing. |
| `PublishingRaces.InterleavedPublishersDouble` | connectors/bigcommerce/connector.py:340-352 | For every catalogue and absent SKU, two publishers that both look up before either writes make two products of it: the execution. |
| `WebhookRegistration.Registrar.RegisterWebhooks` | connectors/bigcommerce/connector.py:398-416 | The loop over scopes, in place. |
| `WebhookRegistration.TriesNeverDouble` | connectors/bigcommerce/connector.py:398-416 | Any number of tries with refused or lost creations adds at most one hook of a wanted scope, only if there was none, and nothing else. |
| `WebhookRegistration.RegistrationIsIdempotent` | connectors/bigcommerce/connector.py:398-416 | A finished registration leaves exactly the hooks promised, returns their ids, and creates nothing when repeated. |
| `WebhookRegistration.TryIsExact` | connectors/bigcommerce/connector.py:398-416 | One try, for each of the three topics: how many hooks it has afterwards, when the try raises, and which ids are returned. |
| `WebhookRegistration.LastIsUsed` | connectors/bigcommerce/connector.py:407-408 | Of several hooks of a topic the last one listed is used again. |
| `Amazon.PageIsSynced` | connectors/amazon/connector.py:235-274 | After a page each listed order has one canonical order and one reference, shows the mapping of its last raw status, keeps all other references; a note exists for exactly the non-empty statuses outside the table; an item that raises ends the page. |
| `Amazon.SyncReturnsIds` | connectors/amazon/connector.py:235-238 | The returned ids are those the listed orders are mapped to. |
| `Amazon.PagesAreSynced` | connectors/amazon/connector.py:235-274 | So it is after any pages, some of which raise part-way: the last status stored counts. |
| `Amazon.ReconcileAgreesWithSync` | connectors/amazon/connector.py:276-307 | For every two status strings, known or not, the check reports exactly when they map to different canonical statuses, and writes nothing but the note. |
| `Amazon.ReconcileAgreesWithPages` | connectors/amazon/connector.py:276-307 | The same after any pages, some of which raise part-way. |
| `Amazon.CheckIsExact` | connectors/amazon/connector.py:276-307 | The check for any store, id and status: nothing for an unknown order, else exactly the difference, noted and returned. |
| `Amazon.FulfilmentDriftIsInvisible` | connectors/amazon/connector.py:284-287 | For every two statuses the check misses a difference exactly when it is one of fulfilment only. |
| `Amazon.DriftExistsExactly` | connectors/amazon/mappings.py:17-28 | There is such a difference to miss exactly for orders whose canonical status the table maps to. |
| `Amazon.TableSays` | connectors/amazon/mappings.py:17-28 | The status table entry by entry, unknown statuses kept, a missing one UNKNOWN. |
| `Amazon.ItemIsStored` | connectors/amazon/connector.py:251-274 | Every field of the order an item stores: a new one with the connector's defaults under the next id, an existing one with its status, fulfilment and reference refreshed. |
| `Amazon.FirstTotalStays` | connectors/amazon/connector.py:251-267 | Over any pages an order keeps the total, currency, number and channel of its first item. |
| `Amazon.AmazonConnector.UpsertOrder` | connectors/amazon/connector.py:240-274 | The upsert, in place. |
| `Amazon.AmazonConnector.SyncOrders` | connectors/amazon/connector.py:235-238 | The loop over a page, in place. |
| `Amazon.AmazonConnector.ReconcileOrder` | connectors/amazon/connector.py:276-307 | The divergence check, in place. |
| `ExternalRefs.ReplacedOwn` | connectors/amazon/connector.py:264-266 | Filtering out the own order references and appending one leaves exactly that one and all others in place. |

## Left out

- Crashes inside one `run_once` operation outside the recovery protocol, and effects that land after a timeout was answered: a lost request either took effect before the call returned or never does, and a request in flight when its runner crashes has either taken effect by then or never does.
- Submitting a purchase order or executing a refund by someone other than the recovery runners, and the standalone `recover_refund_mutation`: the theorems are about the worker's own runs.
- The order in which Postgres lists records, newest first: the model takes the oldest, as the in-memory store does, so that the first open record of a refund, and the order of the groups, are the other way round there. Also the whole of Postgres, S3, HTTP, Temporal, Docling, signatures and hashing: their outcomes are parameters.
- Audit records, raw payload storage, logging, latency metrics and the texts of messages: nothing modelled reads them.
- Non-ASCII decimal digits in catalogue prices: `isdigit` and `int` also know others; texts with them are outside the model.
- The order of sorted evidence references and validation errors: they are sets here.
- Modification times in other offsets than UTC, and texts that `fromisoformat` takes in other forms: a stamp is missing, UTC, or unreadable.
- Amounts parsed through floating point: they are given integers, or raise.
- Rounding of the reported rates to four digits, and the controlled drift after the product loop that adds one mismatch.
- The font's encoding: the reader gives the bytes of shown strings, which a viewer shows in the font's own encoding.
- The escape `#xx` in PDF names, encryption, object streams and incremental updates: the written file has none, and the reader does not know them.
- The spreadsheet and CSV files, images, and the fixed certification scenarios: fixture data.
- BigCommerceGuarantees.OrderOfDeliveriesIsIrrelevant: does not cover deliveries without a status, or with a total that cannot be converted, because there the order of deliveries does matter (`MissingStatusDependsOnOrder`, `MissingTotalDependsOnOrder`); nor fractional seconds, where an earlier event can win (`TimeDoesGoBack`). A delivery whose fetch fails changes nothing.
