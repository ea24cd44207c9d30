# Printer Nanny: a verified model of its cores

Printer Nanny manages printer fleets for service providers. Below its web layer sit a few small cores
whose docstrings promise things no finite set of cases can settle: that two agents never collect one
subnet, that a raw reading is deleted only once it is rolled up, that a backlog drains, that consecutive
billing periods add up. This project models those cores in Dafny and proves the promises for every input,
every run and every interleaving. Where one does not hold as said, it gives an input and the exact
condition under which it does: of two agents, of stamps admitted, of merged days, of the watermark's
progress, of consecutive invoices, and of invoices after raw readings were deleted.

`dafny verify dfyconfig.toml` checks everything.

| Part | Files |
|---|---|
| The collection lease | `CollectorLease` (the row and its statements), `LeaseProtocol` (agents, network, operator, worker), `LeaseProgress` (that the lease moves on), `LeaseRenewals` (which single statements are safe), `LeaseBadRuns` |
| Retention of readings | `Rollup` (aggregate and merge), `Retention` (transactions and runs), `RetentionEnds` (first and last values of the rows), `RetentionPass` (the worker job), `RetentionCycles` (cycle after cycle) |
| Metering and billing | `Meters`, `Tiers`, `Invoicing` (one invoice), `InvoiceRuns` (consecutive ones), `PrunedMeters` (billing after retention), `Money`, `TextOrder` |
| Business calendar | `Dates`, `BusinessCalendar` |
| Sign-in throttle | `Throttle` |
| Printer search | `LikeSearch` |
| Order report | `OrderLines` (what it says), `Reorder` (how it is built, on shared mutable lines) |
| Device definitions | `Oids`, `Texts`, `Json`, `DeviceDefinitions`, `AcceptedDefinitions` (which are accepted, and as what), `DefinitionFixedPoint` |
| Shared | `Options`, `Sorting` |

## What the model found

Where a docstring and its code differ, the code is modelled and the difference is stated as a lemma.

* **The lease** (central/collector.py:41-53 says "for every grant, always"). Exclusion needs four things
  the docstring does not list together: no renewal lowers the row's expiry, statement times never run
  ahead of real time and are never earlier than the instant the agent sampled, and redundancy stays on.
  `EveryAssumptionIsNeeded` drops each in turn and exhibits two agents collecting at once. Which statements
  that break an assumption do harm is exact as well: a renewal that lowers the expiry (`RenewalSafeIff`), a
  heartbeat stamped at any time (`HeartbeatSafeIff`), a takeover stamped at any time (`TakeoverSafeIff`),
  turning redundancy off and on again (`ReseedSafeIff`, central/dashboard/manage.py:1881-1896); in each case
  those that leave a deadline still to come with somebody else or beyond the expiry. Lease lengths may
  vary, statements may stall and be reordered, and nothing is assumed about the offsets of the clocks.
* **Admission** has no lower bound on anybody's stamps. A stamp from inside another agent's closed tenure is
  admitted iff its sender is the holder or the recorded predecessor (`ForeignStampAdmittedIff`); both do
  occur (`HolderMayStampEarlierTenure`, `PredecessorMayStampEarlierTenure`).
* **Merging interleaved batches** keeps the count and both timestamps, but can end the day on the older of
  two known meters; `MergedEndExactIff`, `MergedStartExactIff` and `MergedSnapExactIff` say exactly when
  meters and snapshot are those of the day.
* **Consecutive invoices** can claim pages twice. Each meter's periods tile (`PeriodsTile`), but an invoice
  takes the larger of a printer's total and its split, and a meter that was silent for a period catches up
  in the next. `InvoicesCanOverlap` bills 300 pages for 200 printed. Billed and disclosed pages together are
  never fewer than those of the whole stretch, and as many iff no printer's split exceeds its total in one
  period and falls short of it in another (`InvoicesTileIff`); billed pages alone tile iff every printer
  bills once (`InvoicesBillOnceIff`).
* **Invoices read raw readings only** (central/queries.py:1464-1515), and retention deletes those. A period
  whose baseline was deleted is billed without its first step: `PruningLosesPages` bills 0 of 200 pages.
  `PruneKeepsPeriodIff` is the exact condition for a period, `PrunedInvoiceIff` for an invoice.
* **Progress of the job.** With deletion off the watermark stops for good before a day on which as many
  printers reported as the budget has units: 200, by default (`DefaultBudgetStalls`), where the module's own
  example fleet has 500. It reaches the cutoff iff every unrolled day has fewer (`WatermarkReachesCutoffIff`).
  With deletion on a backlog drains iff the budget is at least two (`BacklogDrainsIff`).
* **Switching deletion off** after a prune counts stragglers again on every pass; `AdditivePassExactIff`
  is the exact condition.
* **Minus zero** passes the non-negative check of a money column and is stored with a sign, out of order
  with plain zero only (`OrdersAgreeIff`).
* **The table of the previous year** is never the one that holds a day's holiday (`ThreeYearsSuffice`).
* **A device definition** whose map has a key of nothing but whitespace is accepted, normalised to an
  empty key, and refused when the normalised form is validated again, as the agent does
  (`ValidatingTwiceIff`, `BlankKeyIsAcceptedOnce`). The arc bound counts dots, so 65 arcs pass (`OidIff`).

## Model

| member | source | states |
|---|---|---|
| CollectorLease.Subnet.RenewLease | central/collector.py:214-269 | a heartbeat's UPDATE touches the row iff the agent is primary or standby of a redundant subnet and either holds it or finds it unheld past the barrier; the whole new row |
| CollectorLease.Subnet.GrantLease | central/collector.py:272-317 | the swap applies iff the lease lapsed and the holder is the one named; the displaced holder and its old expiry become the predecessor |
| CollectorLease.Subnet.ReleaseLease | central/collector.py:320-346 | the holder goes, the expiry stays as the barrier, and the two are recorded as the predecessor's |
| CollectorLease.Subnet.SeedLease | central/collector.py:349-364 | the primary holds from now with no predecessor; nothing happens without a primary |
| CollectorLease.Subnet.RecordDisplaced | central/collector.py:188-211 | the predecessor changes only when the statement displaces another agent |
| CollectorLease.HeartbeatsNeverDisplace | central/collector.py:219-224 | over any number of heartbeats, by anyone and with any times, a holder stays and only the expiry can change, to one its own heartbeat wrote |
| CollectorLease.RenewAll | central/collector.py:367-394 | each row gets exactly its own statement, and the answer is, in order, the CIDRs of the redundant subnets that name the agent and that it holds afterwards |
| LeaseProtocol.StepInv | central/collector.py:214-346 | each step of agents, network, worker and operator keeps: granted deadlines are within the row's expiry, and an ex-holder's is over before its successor's tenure began |
| LeaseProtocol.RunInv | central/collector.py:33-53 | so does every run |
| LeaseProtocol.MutualExclusion | central/collector.py:41-53 | in every reachable state at most one agent is inside a locally live grant, whatever the clocks' offsets, however lease lengths change and whatever is delayed, lost or reordered, as long as no renewal lowers the expiry |
| LeaseProtocol.NoHandoverWhileLive | central/collector.py:49-53 | while an agent believes itself the holder, central would refuse the subnet to anyone else |
| LeaseProtocol.TenureOrder | central/collector.py:188-211 | the recorded predecessor's tenure ends no later than the holder's begins |
| LeaseProtocol.AcceptedSeriesNeverInterleaves | central/collector.py:477-497 | between two accepted readings of one spell, in time order, every accepted reading is of that spell and its agent, though agents that never held the lease, and holders inside their own spells, collect and push without it as well |
| LeaseProtocol.TenuresAreDisjoint | central/collector.py:480-487 | in a reachable state a reading of an earlier tenure is strictly older than one of a later, and one tenure has one agent |
| LeaseProtocol.HistoryAdmittedIff | central/collector.py:480-487 | what was collected under a grant is admitted, whenever it is pushed, iff its agent is the holder or the recorded predecessor; so is all of the last two tenures while there is a holder, and of the last one after a release |
| LeaseProtocol.ForeignStampAdmittedIff | central/collector.py:477-497 | a stamp from inside a closed tenure of another agent is admitted iff its sender is the holder or the recorded predecessor |
| LeaseProtocol.CurrentTenureAdmitsOnlyHolder | central/collector.py:57-60 | from the start of the current tenure on a stamp is admitted iff it comes from the holder, whether or not the sender knows of leases; except at that very instant, which is also the predecessor's if its tenure ended then |
| LeaseProgress.UnheldIsPickedUp | central/collector.py:248-264 | in every reachable state without a holder, a heartbeat of the primary, and as well of the standby, executed once the old expiry has passed makes its sender the holder for the given time, live unless the answer took as long as that |
| LeaseProgress.HolderRenews | central/collector.py:248-264 | so does a heartbeat of the holder, however late, if no takeover came first; its tenure goes on |
| LeaseProgress.UnlapsedIsNotPickedUp | central/collector.py:219-231 | any other heartbeat changes nothing and withdraws the deadline its sender still had |
| LeaseProgress.OutsiderCannotRenew | central/collector.py:226-231 | a holder that is neither primary nor standby any more cannot renew, so its lease lapses on schedule |
| LeaseProgress.LapsedIsGranted | central/collector.py:272-317 | once the expiry has passed, a takeover by the primary or the standby from whoever holds, or from nobody, succeeds |
| LeaseProgress.TakeoverMisses | central/collector.py:300-317 | otherwise it changes nothing |
| LeaseProgress.TakeoverGoesLive | central/collector.py:272-317 | and the first heartbeat after it makes the new holder live |
| LeaseProgress.NewHolderIsOneOfTheTwo | central/collector.py:251-252 | no step makes anybody but the primary or the standby the holder |
| LeaseProgress.UnredundantAdmitsAll | central/collector.py:460-475 | without a standby no statement takes a lease, every agent collects and every reading is admitted |
| LeaseRenewals.StaysExclusiveIff | central/collector.py:41-53 | of any state with a holder, however it came about, exclusion holds in every continuation iff each deadline still to come is the holder's and within the row's expiry |
| LeaseRenewals.HeartbeatSafeIff | central/collector.py:214-269 | a heartbeat that renews or picks up the lease, at any time and for any length, can lead to two live agents iff some deadline still to come, its own answer's included, is another's or beyond the expiry it writes |
| LeaseRenewals.RenewalSafeIff | central/collector.py:232-243 | a renewal from a reachable state can lead to two live agents, all other assumptions kept, iff the expiry it writes is below a deadline granted to its agent and still to come |
| LeaseRenewals.TakeoverSafeIff | central/collector.py:272-317 | a takeover stamped at any time, ahead of real time too, can lead to two live agents iff somebody else's deadline is still to come |
| LeaseRenewals.NotLoweringIsSafe | central/collector.py:232-243 | a renewal that does not lower the row's expiry never is such a one |
| LeaseRenewals.ReseedSafeIff | central/dashboard/manage.py:1881-1896 | turning redundancy off and on again can lead to two live agents iff somebody else's deadline, or the primary's beyond the new expiry, is still to come |
| LeaseBadRuns.ShorterTtl | central/collector.py:233 | with a shortened lease length a renewal lowers the expiry below a granted deadline and two agents collect |
| LeaseBadRuns.StalledStatement | central/collector.py:233 | likewise when a stalled statement executes late with an early time |
| LeaseBadRuns.FastWorker | central/collector.py:304-307 | likewise when the worker's clock runs ahead |
| LeaseBadRuns.SlowReplica | central/collector.py:43-45 | likewise when a replica stamps earlier than the agent sampled |
| LeaseBadRuns.OffAndOnAgain | central/dashboard/manage.py:1881-1896 | likewise when redundancy is turned off and on again |
| LeaseBadRuns.EveryAssumptionIsNeeded | central/collector.py:41-53 | for each assumption a run keeps all the others and breaks exclusion |
| LeaseBadRuns.HolderMayStampEarlierTenure | central/collector.py:477-489 | in a reachable state the row admits the holder's stamp from inside another agent's tenure |
| LeaseBadRuns.PredecessorMayStampEarlierTenure | central/collector.py:490-497 | after a takeover there and back, the row admits the predecessor's stamp from inside the first tenure |
| Rollup.Aggregate | central/retention.py:217-259 | the loop's result is, per meter, the first and last report, with the latest snapshot, the span and the count; nothing for an empty batch |
| Rollup.Merge | central/retention.py:262-301 | the field-by-field merge: later timestamp supplies the end values, earlier the start values, each falling back to the other |
| Rollup.SeparatedMergeIsUnion | central/retention.py:262-301 | batches strictly apart in time merge, in either order, to the aggregate of the whole day |
| Rollup.MergeCountAndSpanExact | central/retention.py:262-301 | for any two batches the count and both timestamps are those of the union |
| Rollup.MergedEndExactIff | central/retention.py:262-301 | with distinct timestamps the merged end meter is the day's iff the later-ending batch also reported it later, or the two agree, or one is silent |
| Rollup.MergedStartExactIff | central/retention.py:262-301 | the same for the start meter |
| Rollup.MergedSnapExactIff | central/retention.py:262-301 | and for the supply snapshot, which goes with the end |
| Rollup.FullyReportedMergeExact | central/retention.py:262-301 | when every reading reports the meter, interleaving costs nothing |
| Rollup.SummaryDescribes | central/retention.py:217-259 | one batch's row describes it: first and last timestamps are its own, a meter or snapshot is known iff some reading reports it, and is that of the reading at its end when all report at distinct times |
| Rollup.MergedDescribes | central/retention.py:262-301 | a straggler batch folded in, the row describes all the readings together, interleaved or not |
| Rollup.InterleavedMergeCanLoseTheEnd | central/retention.py:262-301 | two interleaved batches whose merged day ends on the wrong meter |
| Rollup.RemergeChangesOnlyCount | central/retention.py:262-301 | folding a batch in a second time changes the count and nothing else |
| Retention.StepInv | central/retention.py:326-417 | each insert, commit or crash keeps: a row marked pruned counts exactly the readings deleted for its day, and no other row has any |
| Retention.AdditivePassExactIff | central/retention.py:366-375 | with deletion off a commit keeps that iff the day is not already pruned |
| Retention.NoReadingIsLost | central/retention.py:326-417 | in every interleaving of backdated inserts, passes, crashes and switches of deletion every reading ever inserted is still raw or was deleted, never both, never altered; and what was deleted is counted by the pruned row of its day and covered by it in time, meters and snapshot |
| Retention.PrunedDaysDescribeDeletedReadings | central/retention.py:326-417 | if deletion is never switched off again, a pruned row describes the readings deleted for it, after any number of straggler merges |
| Retention.PrunedDaysCountDeletedReadings | central/retention.py:326-417 | if deletion is never switched off again, a pruned day's count is the number of readings deleted for it and the refusal branch is not taken |
| Retention.PruneNeverRefused | central/retention.py:385-406 | the safety check cannot fire while every row is exact |
| Retention.StepRollsUp | central/retention.py:326-417 | a transaction that commits rolls up every reading its snapshot saw: an unpruned row counts and describes exactly a batch that holds them and is still there, a pruned one covers them |
| Retention.RunKeepsRolledUp | central/retention.py:12-16 | what is rolled up stays so in every run of inserts, passes, prunes and crashes, under any settings |
| Retention.RolledUpCovers | central/retention.py:217-301 | nothing of a rolled-up reading is missing from its day's row: not its time, nor any meter or snapshot it reports |
| Retention.RolledUpExactly | central/retention.py:366-375 | when all of a day's readings are rolled up, an unpruned row counts and describes exactly those, and its start and end values and snapshot are the first and last they report |
| Retention.DayRowsMeaning | central/retention.py:167-169 | a printer-day is that printer's readings stamped within the 86,400 seconds from its midnight |
| RetentionEnds.PrunedRowHasTheEnds | central/retention.py:326-417 | in every run in which deletion stays on, readings silent or not: each start and end meter and the snapshot of a pruned row is the first or last value reported among the readings deleted for it, as long as every batch folded in agreed with those before it |
| RetentionEnds.DisagreeingFoldIsWrong | central/retention.py:262-301 | and the first fold that does not agree leaves that value wrong: both batches report, their values differ, and the one that ends later did not also report later |
| RetentionEnds.ApartBatchesAreExact | central/retention.py:326-417 | so if each folded batch lies before or after all that was deleted before it, all of the row's values are exact |
| RetentionEnds.UnprunedRowsStand | central/retention.py:373-375 | in every run, under any settings, the values of an unpruned row are those of one batch of readings that are all still there |
| Retention.StragglersCountedAgain | central/retention.py:370-375 | with deletion off a straggler batch of a pruned day stays raw and is added by every pass |
| Retention.SwitchingOffDoubleCounts | central/retention.py:370-375 | a run after which a day claims more readings than were ever inserted |
| RetentionPass.EffectiveRawDays | central/retention.py:125-153 | 90 when absent or 0, at least 31, the operator's value otherwise |
| RetentionPass.Budget | central/retention.py:447-451 | 200 when absent or 0, the operator's value when positive, 1 otherwise |
| RetentionPass.CutoffMeaning | central/retention.py:454 | a pass may touch exactly the days that closed at least the raw window ago |
| RetentionPass.SelectDay | central/retention.py:336-357 | exactly the printer's raw rows of that day, ordered by timestamp and id |
| RetentionPass.Store.ProcessPrinterDay | central/retention.py:326-417 | one transaction: snapshot, then what others insert, then commit or crash, as one event of a run; what is returned as rolled and pruned |
| RetentionPass.Store.Upsert | central/retention.py:361-375 | a day not pruned before gets a row that describes and counts exactly the readings selected; a pruned day's row goes on describing whatever it described and these as well |
| RetentionPass.Store.DeleteByIds | central/retention.py:407-414 | deleting in chunks removes exactly the measured ids |
| RetentionPass.Store.ServePrinter | central/retention.py:489-500 | amid inserts of other sessions every reading the snapshot saw is rolled up, a row not pruned before counts exactly those, with deletion on none seen is left, no other day loses any, and nothing rolled up is lost |
| RetentionPass.Store.RunDay | central/retention.py:476-503 | the scan costs one, each printer one; a day is incomplete only if the budget is spent; everything seen of the printers served is rolled up, and with deletion on gone, whatever arrives meanwhile |
| RetentionPass.Store.WriteWatermark | central/retention.py:191-201 | the day is covered afterwards, the watermark never moves back, and never further than the day |
| RetentionPass.Store.RollUpReadings | central/retention.py:423-530 | amid inserts of other sessions at every point of the pass: every reading seen on a completed day is rolled up, and the watermark becomes the last such day unless it is past it; only old readings are deleted and each is counted, none is lost; it ends at the cutoff or when the budget is spent and completes its first day iff the budget exceeds that day's printers; deleting, it makes a nonempty backlog strictly smaller, or does nothing with a budget of one |
| RetentionPass.QuietPass | central/retention.py:423-530 | if nothing arrives, what is left of the backlog is all the backlog there is |
| RetentionPass.BacklogShrinks | central/retention.py:476-503 | of the printer-days seen some leave the backlog and none enters it, and one cleared makes it strictly smaller |
| RetentionPass.RawWindowSurvives | central/retention.py:125-153 | no reading younger than the floored raw window is touched |
| RetentionCycles.RolledUpToTheWatermark | central/retention.py:51-64 | over any number of cycles with deletion off, whatever is inserted meanwhile, every reading there before the watermark passed its day is rolled up once it has |
| RetentionCycles.SteadyRowsAreExact | central/retention.py:18-21 | with nothing inserted each of those days' rows, unless pruned before, counts and describes exactly its readings, with the first and last values they report |
| RetentionCycles.FirstUnrolled | central/retention.py:471-507 | with deletion off and nothing inserted the first unrolled day moves on by a day or more each cycle up to the first day that does not fit the budget, and never past it |
| RetentionCycles.WatermarkReachesCutoffIff | central/retention.py:23-29 | so the watermark reaches the day before the cutoff iff every unrolled day has fewer printers than the budget has units |
| RetentionCycles.DefaultBudgetStalls | central/retention.py:448-452 | 200 printers on one day and the default budget: no number of cycles completes a day |
| RetentionCycles.BacklogDrainsIff | central/retention.py:23-29 | with deletion on and nothing inserted a backlog is empty after as many cycles as it has printer-days iff the budget is at least two; only its readings left |
| Meters.PositiveDelta | central/queries.py:1418-1440 | the loop sums the upward steps between consecutive reports |
| Meters.PeriodMeters | central/queries.py:1518-1543 | per meter the advance from the last report before the period, unknown when silent inside it |
| Meters.ReportBillsTheRise | central/queries.py:1418-1543 | of one more report, from the first instant of the period on and before its end, a period bills the rise since the meter's last report, be that inside the period or before it, and nothing for a fall |
| Meters.FirstReportBillsNothing | central/queries.py:1418-1440 | a meter's very first report bills nothing |
| Meters.OutsideAddsNothing | central/queries.py:1487-1515 | a reading at the end or later, or a silent one, changes nothing |
| Meters.SilentIsUnknown | central/queries.py:1533-1539 | a meter nobody reported inside the period is unknown, not zero |
| Meters.NoResetNoLoss | central/queries.py:1418-1440 | a meter that never falls is billed its whole advance, however often it was polled |
| Meters.PeriodIsAdvance | central/queries.py:1464-1543 | a period bills the difference between the lifetime totals at its two ends |
| Meters.PeriodsTile | central/queries.py:1518-1543 | the periods between any increasing cuts add up to the lifetime total between the first and the last, across resets, gaps and silence |
| Tiers.TieredCost | central/billing.py:154-186 | the graduated cost is the sum over pages of each page's own rate |
| Tiers.CoveringMeaning | central/billing.py:159-161 | a page's rate is that of the lowest ceiling that reaches it, else the base rate |
| Tiers.OrderOfTiersIgnored | central/billing.py:173 | tiers in any order price the same |
| Tiers.SplittingABandIsFree | central/billing.py:163-165 | cutting a band in two at one rate changes no price |
| Tiers.MorePagesNeverCheaper | central/billing.py:154-186 | more pages never cost less under non-negative rates |
| Money.BindAcceptsIff | central/money.py:119-133 | refused iff negative, or if rounding reaches the precision limit |
| Money.TextWidth | central/money.py:134-136 | every stored text has one width and the point in one place |
| Money.TextOrderIsNumeric | central/money.py:135-136 | text order is numeric order of the stored values |
| Money.OrdersAgreeIff | central/money.py:123-136 | with signs allowed the two orders agree iff the pair is not minus zero and zero |
| Money.ReadBackRounds | central/money.py:139-144 | reading back gives the value rounded to the scale |
| Money.QuantizedIsHalfUp | central/money.py:128 | rounding is to the nearest multiple, a tie going up |
| Money.BindIsIdempotent | central/money.py:119-144 | storing what was read back stores the same text |
| Money.KnownTexts | central/money.py:119-136 | the text of 1.005 and of minus zero, rounded, padded and signed |
| Money.RoundMoneyWithinHalfCent | central/money.py:257-262 | rounding moves a line by at most half a cent |
| Money.RoundMoneyIsHalfUp | central/money.py:257-262 | whole cents are the nearest, a tie going away from zero |
| Invoicing.BuildInvoice | central/billing.py:312-420 | each refusal exactly when its own condition holds; otherwise all printers' lines and disclosures under the card given or else the active one, and the larger of subtotal and minimum |
| Invoicing.PricePrinter | central/billing.py:361-396 | a printer's lines, one a class that printed, and its disclosure |
| Invoicing.PagesConserved | central/billing.py:269-309 | billed plus disclosed pages are the pages known to have been printed, over all printers |
| Invoicing.PrinterPagesConserved | central/billing.py:269-309 | the same for one printer: the larger of its total and its split |
| Invoicing.UnreportedClassBilledIff | central/billing.py:296-309 | a class never reported is billed iff it is mono, colour is unreported too, pages were printed and the card says so |
| Invoicing.ReportedClassBilled | central/billing.py:278-294 | a reported class is billed its own pages at its own rates, in one line, iff there are any |
| Invoicing.DisclosedIff | central/billing.py:278-309 | a printer is disclosed iff it reported nothing or some of its pages have no known class |
| Invoicing.DisclosedReason | central/billing.py:278-309 | the reason says which of the printer's meters are unknown |
| Invoicing.LinesAreRounded | central/billing.py:361-396 | every line is its exact cost, rounded once |
| Invoicing.LineIsPricedByPage | central/billing.py:154-186 | a line's amount is the sum of its pages' rates to the nearest cent, each page at the rate of the lowest tier of the line's own class that reaches it, else at the card's rate of that class |
| Invoicing.FlatLine | central/billing.py:366-371 | without tiers of its class, mono pages cost the mono rate and colour pages the colour rate |
| Invoicing.OtherClassIgnored | central/billing.py:366-371 | the rate and tiers of the other class never change a line |
| Invoicing.EveryPrinterIsInvoiced | central/billing.py:358-396 | lines and disclosures are those of all the printers, in their order, and of no others |
| Invoicing.SubtotalWithinHalfCentPerLine | central/billing.py:398-417 | the subtotal is within half a cent a line of the exact cost |
| InvoiceRuns.KnownPagesTileIff | central/billing.py:269-309 | a printer's pages known period by period are never fewer than those of the whole stretch, and as many iff no period's split exceeds its total while another's falls short |
| InvoiceRuns.TwoPeriodsTileIff | central/billing.py:269-309 | for two periods, iff the product of split minus total in the one and in the other is not negative |
| InvoiceRuns.InvoicesTileIff | central/billing.py:358-396 | consecutive invoices leave no gap, and claim no page twice iff that holds of every printer |
| InvoiceRuns.BilledPagesTileIff | central/billing.py:278-309 | one printer's billed pages: never fewer period by period, and as many iff unsplit pages are not billed, or no period has a split, or no unsplit period has pages |
| InvoiceRuns.InvoicesBillOnceIff | central/billing.py:358-396 | the same for consecutive invoices over all printers |
| InvoiceRuns.InvoicesCanOverlap | central/billing.py:301-306 | two invoices that bill 300 pages for 200 printed, with nothing disclosed |
| PrunedMeters.CyclesPruneHistory | central/queries.py:1464-1515 | once deletion has drained the backlog, what billing reads of a printer is its history from the cutoff on |
| PrunedMeters.PrunedPeriodIs | central/queries.py:1487-1543 | with the readings before an earlier cut gone, a period knows the same meters and bills less by exactly one step: from a last report before the cut that no later one replaced to the first inside |
| PrunedMeters.PruneKeepsPeriodIff | central/queries.py:1487-1543 | it is unchanged iff the meter is silent inside, or reported between cut and start, or never before the cut, or reported no rise between the two |
| PrunedMeters.PrunedInsidePeriod | central/queries.py:1464-1543 | a cut inside the period costs what was printed up to it as well |
| PrunedMeters.PrunedInvoiceIff | central/billing.py:358-396 | an invoice never bills more after a prune, and as many pages iff no printer's billed meters lose a step |
| PrunedMeters.PruningLosesPages | central/queries.py:1487-1515 | 200 pages billed before a prune and none after |
| Dates.DateRoundTrip | central/business_calendar.py:25-30 | every calendar date survives the trip through its ordinal |
| Dates.OrdinalRoundTrip | central/business_calendar.py:131 | every ordinal is exactly one calendar date |
| Dates.NextDay | central/business_calendar.py:25-30 | the day after a date is the next of its month, or the first of the next month or year, in months of their Gregorian lengths |
| Dates.WeekdayMeaning | central/business_calendar.py:129 | the first day of year 1 is a Monday and the weekdays follow one another |
| BusinessCalendar.Observed | central/business_calendar.py:16-21 | observed on a weekday, at most a day away |
| BusinessCalendar.NthWeekdayMeaning | central/business_calendar.py:24-26 | the nth weekday is that weekday, in the nth run of seven days of its month |
| BusinessCalendar.LastWeekdayMeaning | central/business_calendar.py:29-32 | the last weekday is that weekday, among the month's last seven days |
| BusinessCalendar.TableIsStatutory | central/business_calendar.py:35-49 | the computed table holds exactly the days of 5 U.S.C. 6103 said declaratively: a weekday within a week of a month, or a fixed date moved off the weekend |
| BusinessCalendar.HolidaysOf2024 | central/business_calendar.py:35-49 | the eleven dates of 2024 |
| BusinessCalendar.HolidaysOf2022 | central/business_calendar.py:35-49 | the eleven dates of 2022, three of them moved off a weekend and one of those into 2021 |
| BusinessCalendar.HolidayYear | central/business_calendar.py:35-49 | every entry of a year's table is a weekday of that year, or the last day of the year before |
| BusinessCalendar.ThreeYearsSuffice | central/business_calendar.py:128-131 | a day is in some year's table iff it is in one of its own and the neighbouring two, and never in the earlier one |
| BusinessCalendar.HolidaysFor | central/business_calendar.py:121-126 | closures always, tables of the given years when observed |
| BusinessCalendar.IsBusinessDay | central/business_calendar.py:128-131 | three tables decide the question for the tables of all years |
| BusinessCalendar.BusinessDayMeaning | central/business_calendar.py:128-131 | of any calendar date: one of the first five days of a week counted from 1 January of year 1, not a closure, and not one of the statute's days of any year where those are observed |
| BusinessCalendar.HorizonIsBusinessDay | central/business_calendar.py:133-140 | past any day and any finite closures there is a business day, so the loop ends |
| BusinessCalendar.AddBusinessDays | central/business_calendar.py:133-140 | the day-stepping loop terminates and returns the nth next business day; a negative count adds none |
| BusinessCalendar.AddedCounts | central/business_calendar.py:133-140 | the result has exactly n business days after the start up to it |
| BusinessCalendar.AddedIsLeast | central/business_calendar.py:133-140 | and no earlier day has |
| BusinessCalendar.BetweenCounts | central/business_calendar.py:133-140 | where the business days after one day up to another are counted as a set |
| BusinessCalendar.AddingIsAdditive | central/business_calendar.py:133-140 | adding twice is adding the sum |
| BusinessCalendar.MonotoneInCount | central/business_calendar.py:133-140 | more days never end earlier |
| BusinessCalendar.LaterOrStricterNeverEarlier | central/business_calendar.py:133-140 | a later start or extra closures never end earlier |
| Throttle.LoginAttempts.Check | central/ratelimit.py:182-208 | refused iff either bucket is over budget; a refusal names the user's bucket if that is over its own threshold and the address's otherwise, with the number of its failures in the window, and the seconds until the failure the threshold is counted back to leaves the window |
| Throttle.RefusesIff | central/ratelimit.py:182-208 | in numbers: as many failures of the user within the policy's minutes as the user threshold, or of the address as the other |
| Throttle.LoginAttempts.RecordFailure | central/ratelimit.py:211-251 | both buckets gain a failure, of those two whatever is older than twice the window goes and of others nothing, and the filled scope is the one that stands exactly at its threshold, the user's first |
| Throttle.LoginAttempts.Clear | central/ratelimit.py:254-278 | every window of the named buckets is empty, every window of every other is as it was, and the answer is how many rows went |
| Throttle.LoginAttempts.Prune | central/ratelimit.py:300-308 | what is older than the cutoff, by default twice the window, goes and nothing else; no window opening at or after it changes; the answer is how many rows went |
| Throttle.ClearedTimes | central/ratelimit.py:254-278 | clearing forgets its buckets and no other |
| Throttle.RecordedTimes | central/ratelimit.py:225-246 | recording adds one failure to each of the two buckets of every window a later query can open |
| Throttle.ExactRelease | central/ratelimit.py:161-179 | with no further failures a full bucket stays full at exactly the times up to the blocking failure's plus the window |
| Throttle.RetryTimeMeaning | central/ratelimit.py:165-179 | the bucket is still full when the reported wait is over iff a whole second was left, and has room a second later |
| Throttle.BlockNeverOutlastsWindow | central/ratelimit.py:27-31 | a block is over once a window has passed since the bucket's last failure, however many there were |
| Throttle.FilledIffNextRefused | central/ratelimit.py:217-251 | a failure recorded at or after a passed check reports a scope iff the next attempt would be refused, and the same scope |
| Throttle.PruneInvisibleIff | central/ratelimit.py:300-308 | a prune is invisible to all windows from a time on iff its cutoff is no later |
| Throttle.RunInvariant | central/ratelimit.py:25-36 | in every serial run, check and record at two readings of the clock, each bucket has at most its threshold of failures in any closed window since it was last cleared |
| Throttle.RunBound | central/ratelimit.py:25-36 | so no stretch of the policy's minutes holds more unforgiven failures of a user, or of an address, than its threshold |
| Throttle.PruningChangesNothing | central/ratelimit.py:65-68 | at every later moment the pruned table gives the verdict, count and wait of the full history |
| LikeSearch.SequentialIsPerCharacter | central/queries.py:1144-1151 | the three replacements in a row escape each character once |
| LikeSearch.SearchFindsSubstrings | central/queries.py:1120-1151 | the pattern is valid and matches exactly the strings the term is a substring of |
| LikeSearch.EscapeFirstIsNeededIff | central/queries.py:1146-1150 | escaping the escape character last gives the same pattern iff the term has no wildcard, and one stray escape for each otherwise |
| OrderLines.ReportDoesNotReshuffle | central/reorder.py:470-477 | the same recommendations in any order give the same list and the same report |
| OrderLines.RolledUpUrgency | central/reorder.py:531-535 | a line's quantity is its number of members, and it is urgent iff some member is |
| OrderLines.RolledUpMostUrgent | central/reorder.py:533-535 | a line's urgency is its most urgent member's, which is its first |
| OrderLines.RolledUpSoonest | central/reorder.py:564-567 | a line's soonest day is the least known one, unknown iff none is known |
| OrderLines.RolledUpPrinters | central/reorder.py:560-561 | a line's printers are its members' |
| OrderLines.RolledUpPrintersOnce | central/reorder.py:560-561 | each once |
| OrderLines.OrderAddsUp | central/reorder.py:517-519 | all line quantities together are the number of recommendations |
| OrderLines.GroupMeaning | central/reorder.py:539-558 | a group holds all of one client's recommendations, in order, and its quantities sum to them |
| OrderLines.LineMeaning | central/reorder.py:546-567 | a line is the roll-up of the client's recommendations of one cartridge, none more urgent than the line |
| OrderLines.LineInPlainTerms | central/reorder.py:546-567 | field by field: the members of a line are all recommendations of its client, model, type and colour, and its fields are theirs |
| OrderLines.ShareALineIff | central/reorder.py:222-230 | two recommendations are counted by one line iff they agree on client, on model with none read as the unknown one, on supply type and on colour |
| OrderLines.OnlyOneLine | central/reorder.py:539-567 | and no recommendation is counted by two |
| OrderLines.EveryRecommendationIsListed | central/reorder.py:539-544 | every recommendation is in its client's group |
| OrderLines.EveryRecommendationHasALine | central/reorder.py:539-567 | and counted by one of its lines |
| OrderLines.ReportIsSorted | central/reorder.py:569-580 | groups by urgent units, total units and name; lines by urgency, soonest day, model and label |
| OrderLines.ReportOrder | central/reorder.py:569-580 | the two orders comparison by comparison |
| Reorder.CartridgeLine.Count | central/reorder.py:559-567 | how one member changes a shared line |
| Reorder.Place | central/reorder.py:539-567 | one step of the pass keeps the two dictionaries and the groups' lists pointing at the same lines, each line up to date |
| Reorder.GroupByClient | central/reorder.py:526-581 | the mutating pass, sorts included, builds exactly the described report out of new objects |
| Reorder.SortEachGroup | central/reorder.py:572-580 | sorting the lines of each group in place touches nothing else |
| Oids.IsValidOid | central/device_definitions.py:202-228 | the character loop accepts iff every run between dots is an arc, within the bounds |
| Oids.OidIff | central/device_definitions.py:202-228 | those are exactly runs of 1 to 20 digits joined by at most 64 dots, in at most 255 characters |
| Oids.OidInPlainTerms | central/device_definitions.py:202-228 | character by character: digits and dots, each dot after a digit, none at the end, no 21 digits in a row, at most 64 dots and 255 characters |
| Texts.TidyMeaning | central/device_definitions.py:266-270 | white space before a word goes, the word stays, and one space stands before the next |
| Texts.StripMeaning | central/device_definitions.py:183-199 | only white space goes, from the two ends, and all of it |
| Json.CheckDepth | central/device_definitions.py:123-142 | the stack loop agrees with recursive depth for every structure and limit, and terminates |
| Json.DepthMeaning | central/device_definitions.py:126-142 | the limit is met iff no chain of values, each directly inside the one before, is longer |
| Json.RejectForbidden | central/device_definitions.py:145-171 | the stack loop refuses iff a forbidden key stands somewhere outside a values object |
| Json.ForbiddenMeaning | central/device_definitions.py:145-171 | a value is refused iff such a chain leads from it, never through the object under the key `values`, to an object with a forbidden key |
| DeviceDefinitions.MappedValues | central/device_definitions.py:334-341 | the loop over a map's values: refusals, and later keys overwriting in place |
| DeviceDefinitions.ValidateDefinition | central/device_definitions.py:428-516 | the two walks and the normalisation together |
| AcceptedDefinitions.AcceptedExactly | central/device_definitions.py:123-516 | a definition is accepted, and stored as d, iff it is a dictionary of known keys that both walks let pass, each field of it is well-formed and d stores exactly what the fields say, and d reads something and at most 32 OIDs: validation is one relation between the caller's dictionary and the stored record, in both directions |
| AcceptedDefinitions.FieldsAreStored | central/device_definitions.py:437-516 | the same of the top-level fields: key, match, flag, lists, status, identity, notes |
| AcceptedDefinitions.SupplyIsStored | central/device_definitions.py:363-384 | the same of a supply |
| AcceptedDefinitions.MeterIsStored | central/device_definitions.py:387-397 | of a meter |
| AcceptedDefinitions.MatchIsStored | central/device_definitions.py:400-425 | of a match, whose enterprise may be a number |
| AcceptedDefinitions.DecodeIsStored | central/device_definitions.py:301-360 | of a decode rule: each kind with its own fields and no others |
| AcceptedDefinitions.MapStoredIff | central/device_definitions.py:334-341 | of a map: each stripped key once, with the percent last given for it, in the order the keys were first given |
| DefinitionFixedPoint.EntriesMeaning | central/device_definitions.py:334-341 | the stored keys are distinct and stripped, and one is empty iff the caller's map had a blank key |
| DefinitionFixedPoint.DecodeFixedIff | central/device_definitions.py:301-360 | a decode rule is accepted again unchanged iff it stores no empty key |
| DefinitionFixedPoint.SupplyFixedIff | central/device_definitions.py:363-384 | the same for a supply |
| DefinitionFixedPoint.MeterFixed | central/device_definitions.py:387-397 | a meter is accepted again unchanged |
| DefinitionFixedPoint.MatchFixed | central/device_definitions.py:400-425 | so is a match |
| DefinitionFixedPoint.ValidatingTwiceIff | central/device_definitions.py:428-434 | validating the normalised definition returns it unchanged iff no supply maps a key of nothing but whitespace |
| DefinitionFixedPoint.BlankKeyIsAcceptedOnce | central/device_definitions.py:336-340 | a definition that is accepted and whose normalised form is refused |
| DefinitionFixedPoint.DefinitionSound | central/device_definitions.py:428-434 | the normalised dictionary has no forbidden key and is at most six levels deep |
| DefinitionFixedPoint.AcceptedIsBounded | central/device_definitions.py:428-516 | what is accepted is within every bound on key, tags, labels, texts, lists, OIDs and depth, and reads something |

## Left out

- Web routes, templates, sessions, sign-on and mail: plumbing over frameworks.
- SQLAlchemy and the databases: a conditional UPDATE is an atomic guarded step, a transaction an atomic
  commit, a query a filter and sort. Isolation weaker than a snapshot is not modelled.
- Clock rates: agent and central clocks may differ by any offset but not in rate. Clock steps appear only
  as the dropped assumptions of `LeaseBadRuns`.
- Deleting an agent, which clears lease columns by foreign key, and agents that collect without any lease
  before redundancy is first turned on.
- A takeover from an agent to itself: central/worker/jobs.py:189 excludes it before the call.
- Which subnet a printer is on and `holder_state`: lookups without a property of their own. Of the lease settings
  (central/collector.py:136-153) only the floor is used: lease lengths are positive.
- RetentionPass.Store.RollUpReadings: a crash in the middle of a pass; it leaves a prefix of the pass, which is
  one of the runs of `Retention`.
- Reuse of a primary key, which would make history by id ambiguous.
- Snapshots of the meters beyond "the latest one", raw text columns and the audit rows of a refusal.
- Explanations attached to prices, invoice labels and CSV, month arithmetic.
- Decimals with a positive exponent, the 28-digit context and the form Postgres binds.
- Parsing of closures and of the calendar's settings; year limits of Python dates.
- Normalisation of user names, `locked_usernames`, and reading the policy from settings: a policy in a run is
  fixed, and `Throttle.RunInvariant` asks of it only what the settings' floors give.
- Case folding in search, and paging.
- How a recommendation arises (thresholds, forecasts, floating point): levels and days are opaque ordered numbers.
- The insertion order of dictionaries is kept where it matters: as a list of keys in `Reorder.Books`, and as
  the order of fields in `Json`.
- Lower-casing beyond ASCII letters, and the text of refusals; a refusal of a definition is one value.
- `canonical_json`, digests and signatures: foreign cryptography and serialisation.
- `validate_feed`: a loop over `validate_definition` that refuses duplicate keys.
- Numbers written as floating point keep only their text and whether they are zero.
