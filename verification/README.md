# Verified model of the upload store, reports and spend arithmetic

A Dafny 4.11 model of the parts of the sales dashboard whose correctness spans several functions, with proofs of what
each part is for. `dafny verify dfyconfig.toml` checks everything.

| part | files | what it models |
|---|---|---|
| MARCOM upload store | `MarcomModel`, `MarcomChain`, `MarcomHistory`, `MarcomRuns`, `MarcomPlan`, `MarcomRemoval`, `MarcomStore`, `MarcomConcurrency` | append-only batches: diff, commit, roll back the latest, remove any, under one write lock |
| Cascading filters | `Cascade` | the prune-and-recompute loop of the filter options |
| Weekly receivables | `Receivables`, `ArLedger`, `DomainEval` | balances rebuilt backwards, weekly movement, the demo ledger and its search domains |
| Exact spend | `Rationals`, `Proration`, `SpendMerge`, `Spending` | rationals, day-proportional campaign spend, merge and breakdown |
| Pace, credit, periods | `Calendar`, `Periods`, `WorkingDays`, `Pace`, `CreditPolicy`, `CreditPlacement`, `CreditStanding`, `CreditOrder`, `CreditView` | the calendar, collection periods, pace against the daily target, credit zones and placement |
| Shared | `Prelude`, `Sums`, `Totals` | options, finite sums, groups |

How to read it. In the MARCOM part the class `MarcomStore.UploadStore` holds the tables and changes them one SQL
statement at a time, as the source does; each operation is proved to move the store exactly by a relation of
`MarcomModel` (`CommitRel`, `RemoveRel`), and the history lemmas speak about those relations over whole runs. In the
other parts loops are methods proved against functions on sequences, and the lemmas speak about those functions.

## Where the code falls short of its promise

Each of these has a lemma with the exact condition, in both directions, and a lemma with a concrete case.

- **Last writer wins.** A removal deletes the superseded rows of its batch, also when a batch in between re-stated the
  value unchanged and therefore owns no row (only live rows are handed over, `removal.ts` line 110). The live view can
  then lose a surviving file's value after further removals: `MarcomRuns.UnsafeRunLosesValue` gives the run,
  `MarcomHistory.RemovalKeepsFaithfulIff` the exact condition, `MarcomRuns.RemovalAfterCommits` the histories that need
  none.
- **A file diffed again is unchanged.** Brand names are stored case-folded and read back as the brand table spells
  them, while the diff compares the spelling: `MarcomRuns.RediffUnchangedIff`,
  `MarcomRuns.OtherSpellingNeverSettles`, `MarcomRuns.SameFileSupersedesItself`.
- **Lines not read count nothing.** The open-line search looks at the payment on the line, the scope test also at the
  payment on the move: `ArLedger.UnreadCountsNothingIff`, `ArLedger.PaymentThroughMoveIsMissed`.
- **Missing value against gap.** Without a target on the anchor day the missing value is set to 0:
  `Pace.ComputeOverview`, `Pace.NoTargetHidesTheGap`.
- **Working days counted against listed** differ when two holiday rows share a date:
  `WorkingDays.CountedAgainstListed`, `WorkingDays.TwoHolidaysOnOneDay`.
- **Action areas must cover their zone**, but an empty list of areas is accepted: `CreditPolicy.AreasCoverIffAny`,
  `CreditPolicy.EmptyAreasAreAccepted`.
- **Breakdown by brand and company** agrees with the total exactly when the rows of brands not in the list sum to 0
  (`Spending.BreakdownAddsUp`). The brand list is read before the rows, so a brand that an upload creates in between has
  rows and no entry: `Spending.UnlistedBrandIsMissed`. With every brand listed all totals agree:
  `Spending.PageBrandsAddUp`.

Two more results hold under a precondition, which is met by the data they are used on.

- **Placement does not depend on the order of lines** when the lines are order free
  (`CreditOrder.PlacementsIgnoreOrderIff`, an exact condition). An invoice's dates and term are those of its first line
  read, so lines of one invoice that disagreed could place a customer differently (`CreditOrder.OrderMatters`). The
  loader takes dates and term from the invoice, its customer and its company, so a customer's lines of one invoice
  repeat them, and such lines are always order free: `CreditOrder.AgreeIsOrderFree`.
- **Nothing is unexplained in a week** exactly when no invoice is over-applied (`Receivables.ExplainedIff`,
  `Receivables.OverApplicationUnexplained`), and the ledger never over-applies (`ArLedger.ExtractedWeeksExplained`).

## Model

| member | source | states |
|---|---|---|
| `MarcomStore.UploadStore.CommitUpload` | 07ps-sales-dashboard-app/backend/src/marcom/service.ts:297-488 | for each of the six refusals, exactly when it comes back, in terms of the upload (missing; another user's; imported already; expired; with errors; a brand of its rows unknown and not confirmed); otherwise the store moves by one commit of its file and marks the upload imported; a refusal changes nothing |
| `MarcomStore.UploadStore.WriteDiff` | 07ps-sales-dashboard-app/backend/src/marcom/service.ts:434-445 | written row by row, the loop ends with every new or changed key written once; no single UPDATE or INSERT ever makes two rows of a key live |
| `MarcomStore.UploadStore.WriteUpdate` | 07ps-sales-dashboard-app/backend/src/marcom/service.ts:436-443 | the UPDATE always hits exactly one live row (the "stale row" throw is dead) and frees the slot that the INSERT takes |
| `MarcomStore.UploadStore.WriteInsert` | 07ps-sales-dashboard-app/backend/src/marcom/service.ts:444 | inserting a new key never meets a live row of that key |
| `MarcomStore.UploadStore.CurrentRows` | 07ps-sales-dashboard-app/backend/src/marcom/service.ts:143-146 | reads exactly the live rows, with brands spelled as the brand table spells them |
| `MarcomStore.UploadStore.NewBrandsOf` | 07ps-sales-dashboard-app/backend/src/marcom/service.ts:131-141 | exactly the brands of the file that the brand table does not know, each under the spelling the file uses first |
| `MarcomStore.UploadStore.CreateBrands` | 07ps-sales-dashboard-app/backend/src/marcom/service.ts:421-427 | each new brand is created by this batch, every other brand is untouched |
| `MarcomStore.UploadStore.RollbackBatch` | 07ps-sales-dashboard-app/backend/src/marcom/service.ts:570-591 | only the latest successful batch, with a reason; the store moves exactly by a removal without later files |
| `MarcomStore.UploadStore.RemoveBatch` | 07ps-sales-dashboard-app/backend/src/marcom/service.ts:655-680 | any successful batch, with a reason; the store moves exactly by the specified removal (rows, links, brands, status) |
| `MarcomStore.UploadStore.RemoveWithin` | 07ps-sales-dashboard-app/backend/src/marcom/service.ts:546-568 | plan, statements and status change together are the specified removal and keep the store valid |
| `MarcomStore.UploadStore.ReadLaterFiles` | 07ps-sales-dashboard-app/backend/src/marcom/service.ts:503-538 | the key sets of exactly the later successful batches that re-stated rows |
| `MarcomStore.UploadStore.LatestSuccessId` | 07ps-sales-dashboard-app/backend/src/marcom/service.ts:740-742 | the greatest id of a successful batch, none when there is none |
| `MarcomStore.UploadStore.ApplyRows` | 07ps-sales-dashboard-app/backend/src/marcom/removal.ts:164-174 | the statements in source order (hand over, delete, re-arm, relink) end at the specified rows |
| `MarcomStore.UploadStore.ApplyRearms` | 07ps-sales-dashboard-app/backend/src/marcom/removal.ts:170-172 | no re-arming UPDATE ever finds another live row of its key |
| `MarcomStore.UploadStore.ApplyBrands` | 07ps-sales-dashboard-app/backend/src/marcom/removal.ts:175-182 | after the statements every brand is as the removal specifies; the NOT EXISTS guard never stops a planned deletion |
| `MarcomStore.UploadStore.PlanBrands` | 07ps-sales-dashboard-app/backend/src/marcom/removal.ts:141-158 | a brand the batch created is deleted exactly when no remaining row uses it, otherwise the earliest remaining user becomes its creator |
| `MarcomStore.DiffKeysDistinct` | 07ps-sales-dashboard-app/backend/src/marcom/service.ts:434-445 | the write loop meets every key at most once when the keys of the file are distinct |
| `MarcomStore.AllWritten` | 07ps-sales-dashboard-app/backend/src/marcom/service.ts:434-445 | once all changed keys are written, the rows are those of the commit relation, unchanged rows left alone |
| `MarcomPlan.DiffTable` | 07ps-sales-dashboard-app/backend/src/marcom/diff.ts:28-52 | every file row lands in exactly one list (insert, update, unchanged, invalid), decided by the live row of its key; an update lists exactly the fields that differ |
| `MarcomPlan.ListChanges` | 07ps-sales-dashboard-app/backend/src/marcom/diff.ts:42-47 | exactly the columns that differ, each once with its old and new value; none exactly when the row is unchanged |
| `MarcomPlan.ChangesDetermine` | 07ps-sales-dashboard-app/backend/src/marcom/diff.ts:42-47 | the old row and its list of changes determine the new row |
| `MarcomPlan.PlanTable` | 07ps-sales-dashboard-app/backend/src/marcom/removal.ts:104-129 | handed over, deleted, re-armed and relinked: each list holds exactly the rows it should, with the right target batch; the deleted rows are reported as live or as history |
| `MarcomPlan.PlanOwn` | 07ps-sales-dashboard-app/backend/src/marcom/removal.ts:108-119 | a live row of the batch goes to the earliest later file holding its key, or is deleted; a superseded one is deleted and listed with its superseder |
| `MarcomPlan.ReportsAddUp` | 07ps-sales-dashboard-app/backend/src/marcom/removal.ts:116-119 | deletions are the deleted live rows plus the listed history rows |
| `MarcomRemoval.OwnPlanIsRight` | 07ps-sales-dashboard-app/backend/src/marcom/removal.ts:104-117 | the planned hand-overs and deletions are exactly what the removal specification does to the own rows |
| `MarcomRemoval.EarlierPlanIsRight` | 07ps-sales-dashboard-app/backend/src/marcom/removal.ts:118-128 | the planned re-arms and relinks are exactly what the specification does to the rows this batch superseded |
| `MarcomRemoval.StatementsAddUp` | 07ps-sales-dashboard-app/backend/src/marcom/removal.ts:164-174 | the four statement lists applied in order produce the specified rows, row for row |
| `MarcomRemoval.UsersForeseen` | 07ps-sales-dashboard-app/backend/src/marcom/removal.ts:141-158 | the users of a brand computed from the plan are those of the rows after the removal |
| `MarcomChain.CommitKeepsInv` | 07ps-sales-dashboard-app/backend/src/marcom/service.ts:407-461 | a commit keeps the structural invariant: owners, one row per batch and key, links, brands |
| `MarcomChain.RemovalKeepsInv` | 07ps-sales-dashboard-app/backend/src/marcom/removal.ts:104-182 | removing any successful batch keeps the structural invariant, without proviso |
| `MarcomChain.OneChainPerKey` | 07ps-sales-dashboard-app/backend/src/marcom/removal.ts:104-129 | per key the rows form one chain with increasing batches, each pointing to the next, only the last live |
| `MarcomChain.LiveIsUnique` | 07ps-sales-dashboard-app/backend/src/marcom/service.ts:434-445 | no key ever has two live rows |
| `MarcomChain.SupersederHasOwnRow` | 07ps-sales-dashboard-app/backend/src/marcom/removal.ts:118-126 | a row superseded by a batch always has a row of that batch beside it, so the "should not happen" branch is never taken |
| `MarcomChain.NewBrandIsUsed` | 07ps-sales-dashboard-app/backend/src/marcom/service.ts:421-423 | a brand the upload creates is used by a row the upload writes |
| `MarcomChain.CommitBrandsOk` | 07ps-sales-dashboard-app/backend/src/marcom/service.ts:421-432 | after a commit every row has a known brand and every upload-created brand a successful creator that uses it |
| `MarcomChain.RemovalBrandsOk` | 07ps-sales-dashboard-app/backend/src/marcom/removal.ts:141-158 | the same after handing over rows and re-owning brands |
| `MarcomChain.BrandsAfterRemoval` | 07ps-sales-dashboard-app/backend/src/marcom/removal.ts:141-182 | a brand the removed batch created is gone exactly when no remaining row names it, else its creator is the earliest batch with such a row; other brands stay |
| `MarcomHistory.FaithfulShowsLastWriter` | 07ps-sales-dashboard-app/backend/src/marcom/removal.ts:1-30 | in a faithful history the live value of each key is that of the newest surviving file holding it, and a key has a live row exactly when such a file exists |
| `MarcomHistory.LastWriterReads` | 07ps-sales-dashboard-app/backend/src/marcom/service.ts:143-146 | where the last writer wins, the live row of a key reads back with the very fields of that file, and its brand up to case |
| `MarcomHistory.SameBrandIff` | 07ps-sales-dashboard-app/backend/src/marcom/service.ts:131-141 | two names are one brand exactly when they differ in the case of letters only |
| `MarcomHistory.CommitKeepsFaithful` | 07ps-sales-dashboard-app/backend/src/marcom/service.ts:434-445 | commits keep the history faithful |
| `MarcomHistory.RemovalKeepsFaithfulIff` | 07ps-sales-dashboard-app/backend/src/marcom/removal.ts:104-129 | a removal keeps the history faithful if and only if it deletes no superseded row that a batch in between still re-states, unless the row before it says the same |
| `MarcomHistory.UnexposedIsSafe` | 07ps-sales-dashboard-app/backend/src/marcom/removal.ts:104-129 | a removal with no such re-stating batch is safe |
| `MarcomHistory.OneRemovalShowsLastWriter` | 07ps-sales-dashboard-app/backend/src/marcom/removal.ts:104-129 | right after one removal from a faithful history the live view is the last writers', safe or not |
| `MarcomHistory.RollbackOnlyDeletesAndRearms` | 07ps-sales-dashboard-app/backend/src/marcom/service.ts:570-591 | rolling back the latest batch hands nothing over, relinks nothing and never meets a superseded own row |
| `MarcomHistory.RollbackIsSafeRemoval` | 07ps-sales-dashboard-app/backend/src/marcom/service.ts:570-591 | a rollback is always a safe removal |
| `MarcomHistory.CommitThenRollbackRestores` | 07ps-sales-dashboard-app/backend/src/marcom/service.ts:421-445 | commit then rollback of that batch restores every row, link and brand exactly |
| `MarcomRuns.RunKeepsInv` | 07ps-sales-dashboard-app/backend/src/marcom/service.ts:375-591 | the structural invariant holds after every run of commits, failures, rollbacks and removals |
| `MarcomRuns.SafeRunShowsLastWriter` | 07ps-sales-dashboard-app/backend/src/marcom/service.ts:434-445 | over whole runs whose removals are safe the live rows are the last writers'; the last removal may even be unsafe |
| `MarcomRuns.RemovalAfterCommits` | 07ps-sales-dashboard-app/backend/src/marcom/service.ts:655-680 | from a history of commits and rollbacks only, removing any one batch needs no proviso |
| `MarcomRuns.FaithfulIffSurvivesRollbacks` | 07ps-sales-dashboard-app/backend/src/marcom/service.ts:570-591 | a reachable state is faithful exactly when no number of further rollbacks can show a wrong value |
| `MarcomRuns.RemovalSurvivesIffSafe` | 07ps-sales-dashboard-app/backend/src/marcom/removal.ts:104-129 | a removal leaves all later rollbacks right exactly when it is safe |
| `MarcomRuns.UnsafeRunLosesValue` | 07ps-sales-dashboard-app/backend/src/marcom/removal.ts:110 | a concrete run of three uploads and two removals that ends with a surviving file whose value is not live |
| `MarcomRuns.RediffUnchangedIff` | 07ps-sales-dashboard-app/backend/src/marcom/diff.ts:28-52 | diffing a just-committed file again finds every row unchanged if and only if its brand spellings agree with the brand table and one another |
| `MarcomRuns.OtherSpellingNeverSettles` | 07ps-sales-dashboard-app/backend/src/marcom/service.ts:351-360 | a file spelling a known brand in another case is an update on every upload |
| `MarcomRuns.SameFileSupersedesItself` | 07ps-sales-dashboard-app/backend/src/marcom/service.ts:434-445 | a concrete run from an empty store: the same file twice, its row superseded by an equal one |
| `MarcomConcurrency.InterleavingKeepsInv` | 07ps-sales-dashboard-app/backend/src/marcom/service.ts:321-336 | in every interleaving of requests (outer check, lock, inner check, diff or plan, write, publish, release, and a failure at any of these points) each staged upload has at most one batch and the store stays valid |
| `MarcomConcurrency.WriterIsUndisturbed` | 07ps-sales-dashboard-app/backend/src/marcom/service.ts:407-461 | a diff is applied to the very rows it was computed from; the stale-row state is unreachable |
| `MarcomConcurrency.InterleavingIsSerial` | 07ps-sales-dashboard-app/backend/src/marcom/service.ts:375-568 | every interleaving, failing requests included, is equivalent to a serial run of whole commits, failures, rollbacks and removals |
| `MarcomConcurrency.StepIsSerial` | 07ps-sales-dashboard-app/backend/src/marcom/service.ts:391-470 | each concurrent step leaves the store alone or is one whole serial step |
| `Cascade.ComputeCascade` | 07ps-sales-dashboard-app/backend/src/filters/cascade.ts:56-107 | the pass loop always leaves by its break within one pass more than the non-empty dimensions, at the closed form; a value is an option exactly when a combo carries it that every scope list and every other selection list holds; the count is that of the combos all lists hold; every kept value is an option |
| `Cascade.OptionsAre` | 07ps-sales-dashboard-app/backend/src/filters/cascade.ts:68-99 | an option is a value of a combo whose value each non-empty scope list, and each other dimension's non-empty selection, holds; no null value meets a list |
| `Cascade.MatchesAreCounted` | 07ps-sales-dashboard-app/backend/src/filters/cascade.ts:68-92 | the count is the number of positions whose combo every scope list and every selection list holds |
| `Cascade.Scan` | 07ps-sales-dashboard-app/backend/src/filters/cascade.ts:65-99 | one scan yields, per dimension, exactly the values of in-scope combos that satisfy every other selection, and the number of full matches |
| `Cascade.CountFailures` | 07ps-sales-dashboard-app/backend/src/filters/cascade.ts:69-86 | how many dimensions a combo fails, capped at two, and which one when it is one |
| `Cascade.FindDropDim` | 07ps-sales-dashboard-app/backend/src/filters/cascade.ts:101 | the first dimension in PRUNE_ORDER holding a value that is not an option, none exactly when all values are valid |
| `Cascade.DropKeepsClosedForm` | 07ps-sales-dashboard-app/backend/src/filters/cascade.ts:101-103 | dropping the invalid values of that dimension does not change where the loop ends |
| `Cascade.NoStaleIsClosedForm` | 07ps-sales-dashboard-app/backend/src/filters/cascade.ts:101-106 | when nothing is stale the selection is the closed form |
| `Cascade.DropSettles` | 07ps-sales-dashboard-app/backend/src/filters/cascade.ts:44-104 | a dropped dimension never becomes stale again, so MAX_PASSES is never exhausted |
| `Cascade.ClosedFormShape` | 07ps-sales-dashboard-app/backend/src/filters/cascade.ts:42-107 | the result empties the shortest prefix of the non-empty dimensions whose clearing leaves a match and keeps in the others exactly the values that still match |
| `Cascade.ClearedIsShortest` | 07ps-sales-dashboard-app/backend/src/filters/cascade.ts:42-104 | the cleared prefix is the shortest that leaves an in-scope match |
| `Cascade.ResultMatchesUnlessOutOfScope` | 07ps-sales-dashboard-app/backend/src/filters/cascade.ts:56-107 | the result matches no combo only when no combo is in scope |
| `Cascade.ResultIsFixpoint` | 07ps-sales-dashboard-app/backend/src/filters/cascade.ts:56-107 | every kept value is a valid option of the result and running again changes nothing |
| `Cascade.NoMatchNoValid` | 07ps-sales-dashboard-app/backend/src/filters/cascade.ts:68-99 | without a full match no selected value of a non-empty dimension is valid |
| `Cascade.ValidIsProjection` | 07ps-sales-dashboard-app/backend/src/filters/cascade.ts:68-99 | with a match the valid selected values are those occurring in a match |
| `Receivables.UnexplainedIsOverApplied` | 07ps-sales-dashboard-app/reporting/ar_weekly/engine.py:85-103 | `unexplained` is exactly what was applied to starting overdue lines beyond their balance, and the movement identity misses by as much |
| `Receivables.ExplainedIff` | 07ps-sales-dashboard-app/reporting/ar_weekly/engine.py:85-103 | `unexplained` is 0 if and only if no starting overdue line is over-applied |
| `Receivables.OverApplicationUnexplained` | 07ps-sales-dashboard-app/reporting/ar_weekly/engine.py:85-103 | a concrete over-applied invoice whose week is not explained |
| `Receivables.CollectedWithinStart` | 07ps-sales-dashboard-app/reporting/ar_weekly/engine.py:70-103 | 0 <= collected <= start overdue, and remaining + new overdue == end overdue |
| `Receivables.WeekIs` | 07ps-sales-dashboard-app/reporting/ar_weekly/engine.py:85-103 | each figure from the lines and payments: late balances at start and end, those of lines not late before, and per class (cash, credit note, other) the debit amounts dated in the week on lines late at its start; collected in all: cash on any invoice |
| `Receivables.WeeksHoldAllCash` | 07ps-sales-dashboard-app/reporting/ar_weekly/engine.py:168-169 | the n weeks together hold all cash of the last 7n days on invoices, each payment in one week |
| `Receivables.AppliedPerLine` | 07ps-sales-dashboard-app/reporting/ar_weekly/engine.py:91-100 | the settlement classes together are what was applied to each starting line |
| `Receivables.StartMoves` | 07ps-sales-dashboard-app/reporting/ar_weekly/engine.py:89-103 | the starting overdue lines lose exactly what was applied to them |
| `Receivables.EndSplits` | 07ps-sales-dashboard-app/reporting/ar_weekly/engine.py:95-97 | the end overdue is the new overdue plus what is left on starting lines |
| `Receivables.WeeksChain` | 07ps-sales-dashboard-app/reporting/ar_weekly/engine.py:168-169 | each week starts where the week before it ended |
| `Receivables.FirstBucket` | 07ps-sales-dashboard-app/reporting/ar_weekly/engine.py:29-35 | the first bucket in list order that holds the days |
| `Receivables.BucketForIs` | 07ps-sales-dashboard-app/reporting/ar_weekly/engine.py:29-35 | 0 when not late, else the key of the first bucket that holds the days, and of the last bucket when none does |
| `Receivables.BucketByBounds` | 07ps-sales-dashboard-app/reporting/ar_weekly/engine.py:29-35 | the bucket whose bounds hold the late days, when the bounds of none before it do |
| `Receivables.DefaultBucketIs` | 07ps-sales-dashboard-app/reporting/ar_weekly/settings.py:55-61 | the default buckets end after 15, 30, 60 and 90 days |
| `Receivables.KpiIsWeekEnd` | 07ps-sales-dashboard-app/reporting/ar_weekly/engine.py:171-181 | the overdue KPI counts the same money as the end of the latest week |
| `Receivables.AgingAddsUp` | 07ps-sales-dashboard-app/reporting/ar_weekly/engine.py:192-201 | the aging buckets add up to the overdue KPI, which is the end of week 0 |
| `Receivables.DefaultBucketsOk` | 07ps-sales-dashboard-app/reporting/ar_weekly/settings.py:55-61 | the default buckets have the positive, distinct keys the identities need |
| `Receivables.NotDueAddsUp` | 07ps-sales-dashboard-app/reporting/ar_weekly/engine.py:203-208 | the three windows cover the not-due balance, and with the overdue make the gross balance |
| `ArLedger.ReceivableLedger.Reconcile` | 07ps-sales-dashboard-app/reporting/ar_weekly/demo_odoo.py:232-243 | applies the least of the amount and both open balances, dated by the later line, and keeps the ledger balanced |
| `ArLedger.ReceivableLedger.AddEntry` | 07ps-sales-dashboard-app/reporting/ar_weekly/demo_odoo.py:119-124 | a new line starts with nothing reconciled and leaves all others alone |
| `ArLedger.ReconcileKeepsLedger` | 07ps-sales-dashboard-app/reporting/ar_weekly/demo_odoo.py:232-243 | residual == amount less everything reconciled, never over-applied, after every reconciliation |
| `ArLedger.AddKeepsLedger` | 07ps-sales-dashboard-app/reporting/ar_weekly/demo_odoo.py:119-124 | the same after adding a line |
| `ArLedger.Extract` | 07ps-sales-dashboard-app/reporting/ar_weekly/extract.py:91-195 | exactly the reconciliations dated after `since`, and one line for exactly the entries that are open or touched by those and in scope by payment, else by move type; a line carries its entry's dates and open amount, and is an invoice exactly when positive and of an invoice or receipt |
| `ArLedger.SettledAs` | 07ps-sales-dashboard-app/reporting/ar_weekly/extract.py:162-168 | a reconciliation reads as credit note exactly for a refund on its credit side, as other exactly without refund, payment, statement line and bank or cash journal |
| `ArLedger.ResidualIsBalance` | 07ps-sales-dashboard-app/reporting/ar_weekly/engine.py:20-26 | for every date from `since` on the backward reconstruction equals original amount less reconciliations up to that date |
| `ArLedger.UnreadCountsNothingIff` | 07ps-sales-dashboard-app/reporting/ar_weekly/extract.py:91-106 | an unread in-scope line counts 0 on every such date if and only if it is not an open line whose payment is known only through its move |
| `ArLedger.PaymentThroughMoveIsMissed` | 07ps-sales-dashboard-app/reporting/ar_weekly/extract.py:91-106 | a concrete open customer payment that is in scope and not read |
| `ArLedger.PastBalanceWithin` | 07ps-sales-dashboard-app/reporting/ar_weekly/demo_odoo.py:232-243 | a debit line has never had a negative balance on any past date |
| `ArLedger.ExtractedWeeksExplained` | 07ps-sales-dashboard-app/reporting/ar_weekly/engine.py:85-103 | on what is extracted from any such ledger every week is explained and collects within its start |
| `DomainEval.Match` | 07ps-sales-dashboard-app/reporting/ar_weekly/demo_odoo.py:103-116 | the right-to-left stack run, None where the source pops an empty stack |
| `DomainEval.MatchIsConjunction` | 07ps-sales-dashboard-app/reporting/ar_weekly/demo_odoo.py:103-116 | on any forest of or, and, not trees it never underflows and returns the conjunction of the trees' truth values |
| `DomainEval.EvaluatesIffWellFormed` | 07ps-sales-dashboard-app/reporting/ar_weekly/demo_odoo.py:103-116 | a token list is evaluated without underflow exactly when it is the prefix form of some list of trees |
| `DomainEval.RunTree` | 07ps-sales-dashboard-app/reporting/ar_weekly/demo_odoo.py:103-116 | a tree pushes exactly its truth value, whatever is below it |
| `DomainEval.OperatorsAre` | 07ps-sales-dashboard-app/reporting/ar_weekly/demo_odoo.py:103-116 | what or, and, not and two conditions side by side say, on the tokens |
| `Rationals.ComputeGcd` | 07ps-sales-dashboard-app/backend/src/marcomKpi/rat.ts:10-15 | the loop computes the greatest common divisor of the absolute values |
| `Rationals.Bezout` | 07ps-sales-dashboard-app/backend/src/marcomKpi/rat.ts:10-15 | the gcd is a combination of its arguments, hence the greatest divisor |
| `Rationals.OfIsCanonical` | 07ps-sales-dashboard-app/backend/src/marcomKpi/rat.ts:26-31 | every constructed value has d > 0, gcd(n, d) = 1 and the value n / d |
| `Rationals.SameValueSameRat` | 07ps-sales-dashboard-app/backend/src/marcomKpi/rat.ts:26-31 | canonical pairs are equal exactly when their values are |
| `Rationals.AddValue` | 07ps-sales-dashboard-app/backend/src/marcomKpi/rat.ts:59 | sums are canonical and exact |
| `Rationals.SubValue` | 07ps-sales-dashboard-app/backend/src/marcomKpi/rat.ts:60 | differences are canonical and exact |
| `Rationals.MulValue` | 07ps-sales-dashboard-app/backend/src/marcomKpi/rat.ts:61 | products are canonical and exact |
| `Rationals.DivInvertsMul` | 07ps-sales-dashboard-app/backend/src/marcomKpi/rat.ts:63 | null exactly for a zero divisor, otherwise the quotient times the divisor is the dividend, as a pair |
| `Rationals.AddAssociates` | 07ps-sales-dashboard-app/backend/src/marcomKpi/rat.ts:59 | addition associates on the pairs themselves |
| `Rationals.AddCommutes` | 07ps-sales-dashboard-app/backend/src/marcomKpi/rat.ts:59 | addition commutes |
| `Rationals.MulAssociates` | 07ps-sales-dashboard-app/backend/src/marcomKpi/rat.ts:61 | multiplication associates |
| `Rationals.MulDistributes` | 07ps-sales-dashboard-app/backend/src/marcomKpi/rat.ts:59-61 | multiplication distributes over addition |
| `Rationals.NeutralElements` | 07ps-sales-dashboard-app/backend/src/marcomKpi/rat.ts:33-34 | ZERO and ONE are neutral |
| `Rationals.SubInvertsAdd` | 07ps-sales-dashboard-app/backend/src/marcomKpi/rat.ts:59-60 | subtraction undoes addition |
| `Rationals.CmpIsOrder` | 07ps-sales-dashboard-app/backend/src/marcomKpi/rat.ts:65-69 | `cmp` is the order of values, 0 exactly for the same pair |
| `Rationals.CmpIsTotal` | 07ps-sales-dashboard-app/backend/src/marcomKpi/rat.ts:65-69 | antisymmetric, total and transitive |
| `Rationals.CmpRespectsAdd` | 07ps-sales-dashboard-app/backend/src/marcomKpi/rat.ts:59-69 | adding the same value keeps the order |
| `Rationals.CmpRespectsMul` | 07ps-sales-dashboard-app/backend/src/marcomKpi/rat.ts:61-69 | multiplying by a positive value keeps the order |
| `Rationals.ScaledIsNearest` | 07ps-sales-dashboard-app/backend/src/marcomKpi/rat.ts:74-81 | the scaled integer of `toNumber` is within half a unit of the 18th decimal, halves up |
| `Rationals.SumRats` | 07ps-sales-dashboard-app/backend/src/marcomKpi/rat.ts:87-91 | the loop adds up exactly |
| `Calendar.FirstDayClosedForm` | 07ps-sales-dashboard-app/backend/src/marcomKpi/totalSpend.ts:21-26 | adding up Gregorian month lengths from year 0, forwards and backwards, gives days before the year plus days before the month |
| `Calendar.MonthStartIs` | 07ps-sales-dashboard-app/backend/src/marcomKpi/totalSpend.ts:21-26 | every month of every year starts where the Gregorian formula in year and month says, which knows no month lengths |
| `Calendar.DayNumberIs` | 07ps-sales-dashboard-app/backend/src/measures/debtCollections.ts:50-57 | a date's day number from its three fields by that formula |
| `Calendar.IsoTextWrites` | 07ps-sales-dashboard-app/backend/src/measures/debtCollections.ts:50-52 | the text of a date is YYYY-MM-DD: reading its digits gives the fields back |
| `Calendar.DateRoundTrip` | 07ps-sales-dashboard-app/backend/src/measures/debtCollections.ts:50-63 | a calendar date survives conversion to a day number and back |
| `Calendar.DayRoundTrip` | 07ps-sales-dashboard-app/backend/src/measures/debtCollections.ts:50-63 | a day number survives conversion to a calendar date and back |
| `Calendar.IsoTextOrder` | 07ps-sales-dashboard-app/backend/src/measures/debtCollections.ts:94 | comparing YYYY-MM-DD text character by character compares days |
| `Calendar.FieldOrderIsDayOrder` | 07ps-sales-dashboard-app/backend/src/measures/debtCollections.ts:94 | year, month, day order is day order |
| `Calendar.WeekStartIsSaturday` | 07ps-sales-dashboard-app/backend/src/lib/businessWeek.ts:13-16 | the only Saturday on or before the day within a week |
| `Calendar.EpochIsThursday` | 07ps-sales-dashboard-app/backend/src/lib/businessWeek.ts:13-15 | day numbers put 1 January 1970 on a Thursday, as the JavaScript calendar does |
| `Periods.MonthsOnDates` | 07ps-sales-dashboard-app/backend/src/measures/debtCollections.ts:58-73 | the first of the month and `addMonths` written as text are the month arithmetic used here |
| `Periods.PeriodStartIs` | 07ps-sales-dashboard-app/backend/src/measures/debtCollections.ts:70-74 | `periodStart` is the first day of the period holding the date |
| `Periods.StepsAlongGrid` | 07ps-sales-dashboard-app/backend/src/measures/debtCollections.ts:76-84 | `periodEnd` is the day before the next period and `nextStart` its start |
| `Periods.PeriodIs` | 07ps-sales-dashboard-app/backend/src/measures/debtCollections.ts:69-80 | a period is one day, a Saturday to the Friday after it, or the first to the last day of a month |
| `Periods.PeriodsBetween` | 07ps-sales-dashboard-app/backend/src/measures/debtCollections.ts:91-97 | exactly the consecutive periods from the one holding `from` to the one holding `to`; an error exactly above 400 |
| `Periods.PeriodsPartition` | 07ps-sales-dashboard-app/backend/src/measures/debtCollections.ts:91-97 | every date of the range lies in exactly one listed period, the one starting at its `periodStart` |
| `Periods.PeriodsMeetRange` | 07ps-sales-dashboard-app/backend/src/measures/debtCollections.ts:91-97 | every listed period meets the range |
| `Periods.PeriodsAbut` | 07ps-sales-dashboard-app/backend/src/measures/debtCollections.ts:91-97 | each period ends the day before the next one begins |
| `Periods.ParseRange` | 07ps-sales-dashboard-app/backend/src/measures/debtCollections.ts:99-113 | refused exactly for a given start after the end or more than 400 periods, with that error; without a start never refused and exactly 30 days, 12 weeks or 12 months |
| `Periods.DefaultRangeLength` | 07ps-sales-dashboard-app/backend/src/measures/debtCollections.ts:105-111 | the default range holds exactly DEFAULT_PERIODS periods whatever its end |
| `Proration.OverlapCountsDays` | 07ps-sales-dashboard-app/backend/src/marcomKpi/totalSpend.ts:24-30 | `overlapDays` is the number of days of the campaign whose month it is |
| `Proration.OverlapsAddUp` | 07ps-sales-dashboard-app/backend/src/marcomKpi/totalSpend.ts:24-30 | over distinct months the overlaps add up to the covered days |
| `Proration.RunCoversAllDays` | 07ps-sales-dashboard-app/backend/src/marcomKpi/totalSpend.ts:24-30 | over any run of months covering [start, end] they add up to end - start + 1 |
| `Proration.ProrateCampaigns` | 07ps-sales-dashboard-app/backend/src/marcomKpi/totalSpend.ts:35-49 | each key holds exactly the shares of its brand and month; a key appears exactly when it has active days |
| `Proration.KeyHoldsParts` | 07ps-sales-dashboard-app/backend/src/marcomKpi/totalSpend.ts:24-49 | over distinct calendar months a key holds, for each campaign of its brand, the part of the spend that its days dated in that year and month are of its duration, the days counted one by one |
| `Proration.SpendIsConserved` | 07ps-sales-dashboard-app/backend/src/marcomKpi/totalSpend.ts:35-49 | over distinct cells the shares are to the spend as covered days are to the duration, and exactly the spend when the cells cover the campaign |
| `Proration.KeysAddUp` | 07ps-sales-dashboard-app/backend/src/marcomKpi/totalSpend.ts:35-49 | adding up any set of keys gives the shares that belong to them |
| `SpendMerge.OtherByKey` | 07ps-sales-dashboard-app/backend/src/marcomKpi/totalSpend.ts:52-59 | each key holds exactly its other spend |
| `SpendMerge.MergeSpendRows` | 07ps-sales-dashboard-app/backend/src/marcomKpi/totalSpend.ts:66-92 | one row per key, sorted: every Page 1 key and every allowed key with spend, no other; spend is campaign plus other, inputs kept |
| `SpendMerge.MergedKeys` | 07ps-sales-dashboard-app/backend/src/marcomKpi/totalSpend.ts:66-83 | the keys are those of Page 1 and, of the brands filtered for if any, those with a campaign day dated in the month or with other spend |
| `SpendMerge.RowsInOrder` | 07ps-sales-dashboard-app/backend/src/marcomKpi/totalSpend.ts:91 | rows run month by month, and by brand within a month |
| `SpendMerge.MergeConserves` | 07ps-sales-dashboard-app/backend/src/marcomKpi/totalSpend.ts:66-92 | the merged rows hold exactly the campaign shares and other amounts of their keys |
| `SpendMerge.MergeHoldsEverything` | 07ps-sales-dashboard-app/backend/src/marcomKpi/totalSpend.ts:66-92 | without a brand filter, over covering distinct months, the rows hold all campaign spend and all other spend |
| `Spending.Aggregate` | 07ps-sales-dashboard-app/backend/src/marcomKpi/spending.ts:63-90 | spend, campaign and other spend of the rows, exactly |
| `Totals.GroupBy` | 07ps-sales-dashboard-app/backend/src/marcomKpi/common.ts:14-22 | each key holds exactly its rows in their order |
| `Spending.BuildBreakdown` | 07ps-sales-dashboard-app/backend/src/marcomKpi/spending.ts:171-205 | total, per-brand, per-company and per-category figures are the exact sums of their rows |
| `Spending.BreakdownIs` | 07ps-sales-dashboard-app/backend/src/marcomKpi/spending.ts:171-205 | spend, campaign and other spend of each entry are the columns added up over all rows, over the rows of the brand, over the rows whose brand belongs to the company, and by category over its lines; companies and categories are exactly those that occur |
| `Spending.BreakdownAddsUp` | 07ps-sales-dashboard-app/backend/src/marcomKpi/spending.ts:171-178 | companies and brands always add up to the same amount, which is the page total exactly when rows of unlisted brands sum to zero |
| `Spending.UnlistedBrandIsMissed` | 07ps-sales-dashboard-app/backend/src/marcomKpi/spending.ts:171-178 | a concrete page whose brand list lacks the brand of its row: 1 in the total, 0 in brands and companies |
| `Spending.ListedBrandsAddUp` | 07ps-sales-dashboard-app/backend/src/marcomKpi/spending.ts:171-178 | with every row of a listed brand, brands, companies and total agree |
| `Spending.PageBrandsAddUp` | 07ps-sales-dashboard-app/backend/src/marcomKpi/spending.ts:171-178 | on the merged rows of one year, brands, companies and total agree when everything read has a listed brand |
| `Spending.CategoriesAddUp` | 07ps-sales-dashboard-app/backend/src/marcomKpi/spending.ts:188-205 | Campaigns bucket plus category buckets equal the total plus the lines no row holds |
| `Spending.AllowedLinesAreHeld` | 07ps-sales-dashboard-app/backend/src/marcomKpi/spending.ts:188-205 | lines of allowed brands are always held by a row |
| `WorkingDays.ComputeWorkingDays` | 07ps-sales-dashboard-app/backend/src/measures/criticalNumber.ts:255-268 | calendar days less Fridays less counted holiday rows, not below 0 |
| `WorkingDays.ListWorkingDays` | 07ps-sales-dashboard-app/backend/src/measures/criticalNumber.ts:272-287 | exactly the days that are neither Fridays nor scope-matched holidays, in order |
| `WorkingDays.ListedAre` | 07ps-sales-dashboard-app/backend/src/measures/criticalNumber.ts:244-287 | a day of the window is listed, once and in order, exactly when it is no Friday and no row of the country or of a company filtered for names it |
| `WorkingDays.LeftAre` | 07ps-sales-dashboard-app/backend/src/measures/criticalNumber.ts:255-268 | the count is days less Fridays less the rows that count and are not for a Friday, not below 0 |
| `WorkingDays.EpochFriday` | 07ps-sales-dashboard-app/backend/src/measures/criticalNumber.ts:67-69 | 2 January 1970 is a Friday, so the rest days are the real ones |
| `WorkingDays.CountedAgainstListed` | 07ps-sales-dashboard-app/backend/src/measures/criticalNumber.ts:255-287 | the count never exceeds the list, and equals it exactly when no two counted rows share a date or no day is left |
| `WorkingDays.TwoHolidaysOnOneDay` | 07ps-sales-dashboard-app/backend/src/measures/criticalNumber.ts:255-287 | two rows for one day: counted 0, listed 1 |
| `Pace.TargetSum.Add` | 07ps-sales-dashboard-app/backend/src/measures/criticalNumber.ts:291-296 | one more of a value raises the total by that value |
| `Pace.TargetSum.GetTotal` | 07ps-sales-dashboard-app/backend/src/measures/criticalNumber.ts:298-302 | count times value over distinct values is the sum of all values added |
| `Pace.FetchYtdPaceDays` | 07ps-sales-dashboard-app/backend/src/measures/criticalNumber.ts:760-784 | one entry per day of the window, working by the same rule as the list |
| `Pace.ListedTargetIsExpected` | 07ps-sales-dashboard-app/backend/src/measures/criticalNumber.ts:272-310 | the target of the listed working days is the expected value of the pace days |
| `Pace.WindowIs` | 07ps-sales-dashboard-app/backend/src/measures/criticalNumber.ts:760-784 | over a window the actual counts every day's sales, and the expected the target of every day that is neither Friday nor holiday |
| `Pace.WorkedAre` | 07ps-sales-dashboard-app/backend/src/measures/criticalNumber.ts:760-784 | the working days are as many as those days |
| `Pace.ComputePeriodCounter` | 07ps-sales-dashboard-app/backend/src/measures/criticalNumber.ts:486-512 | expected, gap, period target and achievement from the listed days; the two day counts exactly, never above the listed days |
| `Pace.ComputeMissingSummary` | 07ps-sales-dashboard-app/backend/src/measures/criticalNumber.ts:817-878 | headline and trend values as running sums; the day in progress only in the headline |
| `Pace.FinishedPrefix` | 07ps-sales-dashboard-app/backend/src/measures/criticalNumber.ts:839 | the trends cover exactly the days before the one in progress |
| `Pace.RunningEntry` | 07ps-sales-dashboard-app/backend/src/measures/criticalNumber.ts:841-845 | an entry of the running trend times its day's target is what is missing up to that day; 0 without a target |
| `Pace.MonthlySays` | 07ps-sales-dashboard-app/backend/src/measures/criticalNumber.ts:846-848 | a month's entry is what was missing on its last finished day |
| `Pace.RoundIs` | 07ps-sales-dashboard-app/backend/src/measures/criticalNumber.ts:851-854 | the missing days are the missing value in days of the anchor's target, to the nearest, halves up |
| `Pace.BucketPaceDays` | 07ps-sales-dashboard-app/backend/src/measures/criticalNumber.ts:926-977 | the buckets cut the days into contiguous runs, one per period, with the sums of their days |
| `Pace.ColumnsAre` | 07ps-sales-dashboard-app/backend/src/measures/criticalNumber.ts:969-975 | each gap column is actual less target, and in days of the target of the row's last day, 0 without one |
| `Pace.CumulativeIsPrefixSum` | 07ps-sales-dashboard-app/backend/src/measures/criticalNumber.ts:932-968 | cumulative columns are the prefix sums of the per-period columns |
| `Pace.LastGap` | 07ps-sales-dashboard-app/backend/src/measures/criticalNumber.ts:965-975 | the last cumulative gap is the gap of all days, for every granularity |
| `Pace.YearlyGapAgrees` | 07ps-sales-dashboard-app/backend/src/measures/criticalNumber.ts:500-510 | the yearly gap is the gap of the same pace days |
| `Pace.NoTargetHidesTheGap` | 07ps-sales-dashboard-app/backend/src/measures/criticalNumber.ts:851-854 | a concrete year where the gap is 5 behind and the missing value reads 0 |
| `Pace.ComputeOverview` | 07ps-sales-dashboard-app/backend/src/measures/criticalNumber.ts:985-998 | daily, weekly and monthly last cumulative gaps and the yearly gap are all equal; the missing value agrees under its exact condition |
| `CreditPolicy.ValidateCreditPolicy` | 07ps-sales-dashboard-app/backend/src/config/creditPolicy.ts:68-85 | accepts exactly chains of zones from day 0 whose action areas fit their zone or are an empty list; otherwise reports the first thing wrong with the first wrong zone or area |
| `CreditPolicy.OneError` | 07ps-sales-dashboard-app/backend/src/config/creditPolicy.ts:68-85 | no policy has two such errors, so the reported one is fixed |
| `CreditPolicy.AcceptedIffPartition` | 07ps-sales-dashboard-app/backend/src/config/creditPolicy.ts:68-85 | a policy is accepted if and only if its zones, in order, partition the days from 0 on |
| `CreditPolicy.AreasCoverIffAny` | 07ps-sales-dashboard-app/backend/src/config/creditPolicy.ts:75-82 | the areas of an accepted zone partition its days exactly when the list is not empty |
| `CreditPolicy.EmptyAreasAreAccepted` | 07ps-sales-dashboard-app/backend/src/config/creditPolicy.ts:75-91 | a concrete accepted policy with a day that has no action area |
| `CreditPolicy.ZoneLookup` | 07ps-sales-dashboard-app/backend/src/config/creditPolicy.ts:93-97 | every day from 0 on is looked up in the one zone holding it, a negative day in none |
| `CreditPolicy.CountdownIsExact` | 07ps-sales-dashboard-app/backend/src/config/creditPolicy.ts:99-105 | the customer stays in its zone until the last day of the countdown and is in the next zone on its end; none only before the due date or in the last zone |
| `CreditPolicy.ActionIsFound` | 07ps-sales-dashboard-app/backend/src/config/creditPolicy.ts:87-91 | a zone with areas always has exactly one for each of its days |
| `CreditPolicy.PolicyInForceIsAccepted` | 07ps-sales-dashboard-app/backend/src/config/creditPolicy.ts:38-53 | the zones in force are accepted |
| `CreditPlacement.ReadInvoices` | 07ps-sales-dashboard-app/backend/src/measures/debtAging.ts:212-229 | the invoices of a group and both totals, read line by line |
| `CreditPlacement.InvoiceIs` | 07ps-sales-dashboard-app/backend/src/measures/debtAging.ts:212-229 | each invoice has the sum of its lines, the earliest due date of its open lines and the attributes of its first line |
| `CreditPlacement.ReadOverdue` | 07ps-sales-dashboard-app/backend/src/measures/debtAging.ts:233-244 | overdue amounts and the set of overdue invoices, line by line |
| `CreditPlacement.FindDeciding` | 07ps-sales-dashboard-app/backend/src/measures/debtAging.ts:245-255 | the unpaid invoice before all others by due date, invoice date and move id |
| `CreditPlacement.PlaceCustomers` | 07ps-sales-dashboard-app/backend/src/measures/debtAging.ts:202-297 | each group is placed by its deciding invoice, or left out exactly when it has no unpaid invoice with a date |
| `CreditPlacement.ZoneIffOverdueInvoice` | 07ps-sales-dashboard-app/backend/src/measures/debtAging.ts:225-287 | a placed customer is in a zone exactly when its separately counted overdue invoices are at least 1 |
| `CreditPlacement.PlacedCoherently` | 07ps-sales-dashboard-app/backend/src/measures/debtAging.ts:202-297 | the same for every customer placed |
| `CreditStanding.StandsInPolicy` | 07ps-sales-dashboard-app/backend/src/measures/debtAging.ts:256-287 | for every placed customer: days overdue count from the day after the due date; the zone holds them and is GREEN to 15, YELLOW to 30, RED to 44, BLOCK beyond, none before; the next zone starts on the day counted down to, approaching within 7 days; the action is that of days 45-60, 61-65 or beyond |
| `CreditStanding.Decides` | 07ps-sales-dashboard-app/backend/src/measures/debtAging.ts:245-256 | the deciding invoice is unpaid, gives due date, source and term, and comes before every other unpaid one by due date, age and number, read off the lines |
| `CreditStanding.DueIs` | 07ps-sales-dashboard-app/backend/src/measures/debtAging.ts:187-194 | the due date is the earliest open instalment, else the invoice's own, else its date plus term days, else its date, with that source |
| `CreditStanding.PlacedIff` | 07ps-sales-dashboard-app/backend/src/measures/debtAging.ts:245-249 | a customer is placed exactly when it has an unpaid invoice with a due date |
| `CreditStanding.Figures` | 07ps-sales-dashboard-app/backend/src/measures/debtAging.ts:208-244 | totals, overdue amounts, overdue invoices and unpaid invoices of a placed customer, added up and counted over its own lines in the currency of the view |
| `CreditOrder.PlacementIgnoresOrderIff` | 07ps-sales-dashboard-app/backend/src/measures/debtAging.ts:202-297 | a customer is placed the same in every order of its lines if and only if reading any line first gives each invoice the same overdue figures and the same need of a date, and leaves the deciding invoice first with the same due date and term |
| `CreditOrder.PlacementsIgnoreOrderIff` | 07ps-sales-dashboard-app/backend/src/measures/debtAging.ts:202-297 | the same for all customers together |
| `CreditOrder.AgreeIsOrderFree` | 07ps-sales-dashboard-app/backend/src/measures/debtAging.ts:212-229 | lines that repeat their invoice's attributes meet that condition |
| `CreditOrder.OrderMatters` | 07ps-sales-dashboard-app/backend/src/measures/debtAging.ts:212-229 | two concrete lines of one invoice with different terms: the term shown is that of the line read first |
| `CreditView.BuildCreditPolicy` | 07ps-sales-dashboard-app/backend/src/measures/debtAging.ts:330-388 | the customers shown are exactly the placed ones due before the as-of date and of the term, each once and in a zone; each zone counts and adds up exactly the customers standing in the zone of its name, the total all of them, and the zones make the total |
| `CreditView.ChosenAre` | 07ps-sales-dashboard-app/backend/src/measures/debtAging.ts:342-343 | the lines of the view are those in its currency, or all of them |
| `CreditView.ZoneTotalsAddUp` | 07ps-sales-dashboard-app/backend/src/measures/debtAging.ts:363-381 | over customers in zones any zone figures add up to the overall figure |
| `CreditView.ShownOf` | 07ps-sales-dashboard-app/backend/src/measures/debtAging.ts:344-361 | exactly the placed customers that are overdue and of the term, each once |

## Left out

- SQL text, transactions' isolation inside the database, routes, queues, mail and file staging: tables are in-memory collections; a request in progress is a sequence of steps (`MarcomConcurrency`) and a transaction's writes become visible in one of them.
- The workbook parser: a parsed file is a list of keyed rows; a repeated key is a parse error, and errors block the commit.
- The eight tables are one collection keyed by table and natural key, with one row id sequence; `keyOf` joins are keys, and ids are not sent in chunks of 500.
- Text case folding covers ASCII letters only.
- `LATER_FILE_MISSING` and `LATER_FILE_OLD_TEMPLATE`: every committed batch keeps its file and re-parsing it gives the same keys.
- The hash check of a staged file, `validateUpload`, previews, period labels, the audit log and admin renames of brands and categories; rows from before template 2.0 without a brand.
- MarcomStore.UploadStore.CommitUpload: returns the batch id only, not the counts and period of the summary; of the summary the unchanged count is kept because removals read it.
- MarcomPlan.DiffTable: the brand comes first in a list of changes, the other columns follow in table order (the source lists the brand at its place among them).
- MarcomPlan.PlanTable: labels of keys.
- MarcomConcurrency.InterleavingKeepsInv: a lock timeout is a refused step at any time, without clocks; expiry of a staged upload is a flag.
- Receivables.UnexplainedIsOverApplied: amounts are integer cents, so rounding to 2 decimals and the `EPS` tolerance become exact tests; targets, weighted days, priority lists, crossings and recommendations are left out.
- ArLedger.Extract: account type, posted state and company filters (every ledger line is a posted receivable in scope of the company); customer, salesperson and team columns.
- ArLedger.ReceivableLedger.Reconcile: amounts in the document currency; the company-currency residual and its rate are left out.
- DomainEval.Match: the truth of a leaf condition is a parameter.
- `Rat.parse` and the final conversion to a JavaScript number: amounts arrive as rationals; `toNumber` is modelled up to its scaled integer.
- Calendar.IsoTextOrder: dates are calendar dates of the years 0 to 9999; ISO-shaped text that is no date is left out.
- SpendMerge.MergeSpendRows: brand name and kind of a row; keys are triples instead of joined text.
- Spending.Aggregate: spend, campaign and other spend only. The other sums, made the same way, are left out.
- Spending.BuildBreakdown: the order in which companies and categories are listed; ratios and series.
- WorkingDays.ComputeWorkingDays: official holiday rows arrive expanded for the window and carry no branch; company names are compared as given (the source lower-cases both sides).
- Pace.ComputeMissingSummary: values are reals; the 30-day slice and the percentage of a trend are left out; the trend by month is a map instead of a sorted list.
- Pace.ComputeOverview: assumes that the yearly actual and the daily actuals are read from the same sales rows.
- CreditPlacement.PlaceCustomers: names, references, company and document of the deciding invoice; amounts are integers in millionths.
- CreditView.BuildCreditPolicy: the currency is given (the default picks the one with most customers); the sort order of the list, term options and the currency list are left out.
- Access rights, tokens, forecasting, rendering, Excel output and single-branch status rules.
