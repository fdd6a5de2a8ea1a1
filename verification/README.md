# Wolf365 billing: a verified model

Wolf365 bills a managed-service provider's customers: it turns logged hours, prepaid
blocks, yearly agreements and fixed-fee projects into invoice lines, pushes the lines
to QuickBooks, pulls tickets from a remote service desk, reconciles customers between
systems, keeps stored secrets encrypted and reports on how fast customers pay. This
project restates the arithmetic and the protocols of that application in Dafny, in the
form the code has them, and proves what they are for.

## What is proved

**Hours.** `SfGenerate` apportions time entries against prepaid and included hours,
rolls the rest onto lines and prices each line at a weighted rate. For every entry id
the hours on lines plus the hours covered are the hours logged; capacity is used
oldest work first, and what is charged is exactly the part of the running total beyond
capacity. `SfPricing` proves that an entry's line carries the rate that was resolved when it
was apportioned, that the line total is within half a cent per hour plus half a cent of hours
times rate, and for exactly which pairs of agreements that holds of all their entries.
`SfRates` says where every hour of an entry goes and at what rate, on the fields of entries,
agreements and projects, and `SfGrouping` which hours share a line.
`SfCapacity` proves exactly when a series of runs covers no more hours than an agreement has.

**Prepaid blocks.** `BlockTime` draws hours from blocks, earliest expiry first. The plan
accounts for every hour asked, overdraws nothing, and no other lawful way of drawing the
same hours leaves more hours alive at any later time. `BlockLedger` says the same on the fields
of the blocks, and that over any series of recorded draws no block gives more than was bought.

**Fees and anniversaries.** `Fees` follows the billed-through watermark over a series of
runs: it is always the start plus what was billed, and once no run was cut by the cap of 24
the number billed is the number of complete intervals. `Anniversaries` proves that a yearly
agreement is due in a period exactly when an anniversary lies in it, and that over any
consecutive periods it bills every anniversary once if and only if no period holds two, on
the calendar that `CivilDays` shows to be the civil one.
`Agreements` holds an agreement's terms and what instants one fee of it is owed for.

**Runs.** `SfStore` is the store with its steps: log, submit, approve, reject, reopen and drop
time; generate, edit, transition, delete and push runs, where QuickBooks may refuse an invoice,
and may take one without the commit that follows succeeding. Generating is the verified
generator itself: `SfGenerate` for the hours and `SfCharges` for recurring fees, blocks,
deposits and fixed fees, whose lines are proved fit to be saved whatever is in the store;
`SfDrafts` says what a draft takes over, and `SfMoney` what every such line totals, and that
over every history at a steady price the money invoiced for a fixed fee is the price of the
time its watermark has moved. `SfReviews` proves that nothing is sent that was not reviewed and
approved as it is, and no time approved that was not submitted as it is.
`SfRuns` proves what every history of steps keeps. A time entry, block or deposit is marked as
billed exactly when it is on an invoice whose commit succeeded; what a push sends is the mapped
part of the lines last approved; none of these is charged for twice if and only if no push
sent something already marked, or on an invoice whose commit failed, and then the hours invoiced
for an entry are within its logged hours; every PUSHED run has an invoice if and only if none
was moved there by hand; every invoice keeps its run if and only if no invoiced run was
deleted. A recurring fee leaves no mark at all. `SfRecurring` proves that it is charged for
once in each month, or on each anniversary, if and only if no push sent it for a period that
shares an instant (an anniversary) with an invoice that carries it, and counts the fees of a
yearly agreement against the anniversaries they are for. `SfFees` proves that, however runs are
interleaved and edited, the stretches of time that pushes bill for a project follow one another
without overlap from its start to its watermark if and only if no commit of its fee failed, and
that each is over by the end of its run's period if and only if no push sent more than was due.
Both `SfRuns` and `SfRecurring` give a discipline that keeps every push clean. `SfWitnesses`
holds the histories that break what these conditions guard.

**Time.** `Calendar` lays out a day: overlapping blocks never share a lane, every cluster
is one connected component of the overlap graph, and its lane count is the largest number
of blocks under way at one minute, so no layout gets by with fewer. `BusinessHours` proves
that adding and measuring working time are inverse, compose and add up, on local days of
23 to 25 hours; `WorkingTime` proves that what is measured is the number of instants in the
day's window, that what is added ends the stretch that holds so many, and on exactly which days
that window is the one the clock shows.

**Matching.** `Discrepancies` proves that the two-row table computes the Levenshtein
recurrence, that this is the least number of single-character edits, and that it is a
metric. `Similarity` proves the greedy customer matching one-to-one, stable and worth at
least half of any other one-to-one choice.

**Protocols.** `Crypto` and `CryptoRotate` prove that every stored field reads the same
after any prefix of any passes of key rotation, that values already under the primary key
are untouched, and that a complete report over all columns means the retired keys can go. `Backfill` proves
that a resumed sweep never skips a page, whatever mix of successful, bounded and failed runs
it took, and that enough successful runs finish it if and only if the list fits the page cap. `RateLimit` proves the real bound of the limiter, for calls one at a time and for
reads and writes that interleave, and that each bound is reached.

**Accounts and printing.** `Dso` proves that cash totalled globally, per customer, per month
and per yearly cohort is the same cash, that revenue comes to the same by customer and by year,
that the tiers account for all of the cash, and that the portfolio figure lies between those of
two customers; `DsoFigures` says what the figures mean in dates and days.
`Proration` proves that splitting a period or a subscription bills the same days and seats, and
`ProrationCharges` how near each charge is to price times seats times the part of the period.
`Csv` prints tables and gives a strict reader of section 2 of RFC 4180 that recovers them.

`Wrappers`, `Sums`, `Sorting`, `Text`, `Arith` and `Money` hold what the others share.

## Conventions

Hours, rates and seat prices are whole numbers of 0.0001, the grid of `Decimal(18, 4)` and
of `roundHours`; money is in cents; proration factors are whole numbers of 0.000001;
instants are whole milliseconds. `Math.round` is rounding to nearest with halves up. The
`Number.EPSILON` nudges and binary floating point are not modelled: ratios are exact, and
thresholds such as 0.85 are compared over the reals. A JavaScript `Map` that is written in
insertion order is a sequence of buckets or a Dafny map, as its use requires. A loop of the
source is a method whose `ensures` equates it with a function, and the properties are lemmas
about that function. Time zones, text normalisation, ciphers and the remote list are
parameters; each lemma states what it assumes of them.

## Where the code does not do what it says

Each of these is proved: the exact condition under which the promise holds, for all inputs or
histories, and a witness on which it fails.

- **Every entry is accounted for** (`src/lib/sfbilling/generate.ts:115-118`): an entry of
  zero hours that reaches an agreement's capacity is on no line and not in the covered list,
  and one of negative hours is dropped and raises the capacity (`SfGenerate.EntryShown`,
  `SfGenerate.HoursAccounted`, `SfGenerate.EntryOfNoHoursIsLost`). The defect is latent: the
  forms that write time entries refuse hours that are not positive
  (`src/lib/silverfang/time.ts:23-50`), and `SfStore` keeps all stored hours positive.
- **A line is priced at its own entries' rates** (`src/lib/sfbilling/generate.ts:330-351`): two
  agreements share a bucket key when the id of one, followed by a bar, begins the other's. For
  every such pair there are an hour at 100.00 and an hour at 200.00 on one line of 200.00
  (`SfPricing.MistakenRate`); every other pair is priced right in every context
  (`SfPricing.PricedIff`). Latent too: generated ids hold no bar (`SfPricing.PlainIdsDoNotClash`).
- **Included hours and prepaid blocks cover what they hold** (`src/lib/sfbilling/service.ts:91-118`):
  each run starts from the whole of an agreement's hours, because covering hours records no
  draw; two runs of one month cover them twice (`SfCapacity.WithinCapacityIff`,
  `SfCapacity.CoveredTwice`).
- **An hour is billed once** (`src/lib/sfbilling/service.ts:43-59`): pushing a
  PARTIALLY_FAILED run again sends its mapped lines again, two drafts can hold the same
  entry, and when the commit after an invoice fails nothing is marked and a retry is offered
  (`SfRuns.NothingBilledTwiceIff`, `SfWitnesses.RetryBillsTwice`,
  `SfWitnesses.TwoDraftsBillTwice`, `SfWitnesses.RetryAfterLostCommit`).
- **Billed hours do not stay billable** (`src/lib/sfbilling/push.ts:28-30`): they do when that
  commit fails; the marks agree with the invoices whose commit succeeded, and with all of them
  while none fails (`SfRuns.BilledIffOnInvoice`, `SfWitnesses.RetryAfterLostCommit`).
- **A recurring fee is charged once** (`src/lib/sfbilling/generate.ts:222-226`): nothing marks
  it, so whatever the agreement, two runs in whose periods it is due both carry it, and what
  the periods share is charged for twice (`SfRecurring.FeeBilledOnceIff`,
  `SfWitnesses.FeeGoesOutTwice`, `SfWitnesses.FeesBilledTwice`).
- **PUSHED means invoiced**: the table of `src/lib/sfbilling/state.ts:11-18` lets an APPROVED
  run be moved to PUSHED by a transition, with no invoice, or none of all its lines
  (`SfRuns.PushedMeansInvoicedIff`, `SfReviews.PushedMeansInFullIff`, `SfWitnesses.PushedByHand`).
- **A run with an invoice is not deleted** (`src/app/(app)/silverfang-billing/actions.ts:605-619`):
  one that went out in part can be cancelled and then deleted (`SfRuns.InvoicesKeepRunsIff`,
  `SfWitnesses.InvoiceForgotten`).
- **A fixed fee is billed when its period is complete** (`src/lib/sfbilling/generate.ts:263-274`):
  two runs generated on one day and both pushed bill a period that has not ended
  (`Fees.PushWithinDate`, `Fees.TwoRunsOneDay`), and an edited line can bill any number
  (`SfFees.BilledWhenCompleteIff`).
- **No period of a fixed fee is billed twice** (`src/lib/sfbilling/push.ts:155-157`): one is when
  the commit fails, since the watermark then stays (`SfFees.FeeStretchesTileIff`,
  `SfWitnesses.LostFee`).
- **A yearly agreement is charged on its anniversary** (`src/lib/sfbilling/generate.ts:222-250`):
  a period of 366 days can hold two and bills one (`Anniversaries.BilledOncePerAnniversaryIff`,
  `Anniversaries.LongPeriodBillsOnce`).
- **Working time is inside business hours** (`src/lib/silverfang/business-hours.ts:7-10`): windows
  are measured from the time elapsed since midnight, and `isWithinBusinessHours` goes by the
  clock, so they part on a day whose clock is moved before the window closes
  (`WorkingTime.CountsBusinessHoursIff`, `WorkingTime.SpringForwardLags`).
- **A resumed sweep finishes** (`src/connectors/superops/sync.ts:858-917`): never when the list is
  longer than the cap of 1000 pages, nor when it is exactly that long and no total is reported,
  although every row has then been stored (`Backfill.NeverCompletes`, `Backfill.SomeListSticks`,
  `Backfill.StuckWithEverything`); always otherwise, after as many successful runs as the cap
  has pages (`Backfill.FinishesIff`).

The rate limiter is a fixed-window one and promises no more; how far an arbitrary interval of
the window's length can exceed the limit, and exactly when it cannot, is `RateLimit.KeepsLimitIff`.

## Model

| member | source | states |
|---|---|---|
| SfGenerate.GenerateHourLines | src/lib/sfbilling/generate.ts:283-411 | the loops produce the covered list of the apportioning and one line per bucket of its charges |
| SfGenerate.ApportionEntry | src/lib/sfbilling/generate.ts:318-375 | the loop body, with its early exits, is one step of the apportioning, and a charge joins or opens the bucket of its key |
| SfGenerate.BuildCapacity | src/lib/sfbilling/generate.ts:303-310 | the capacity map before the first entry |
| SfGenerate.BuildLines | src/lib/sfbilling/generate.ts:379-411 | one line per bucket, in bucket order |
| SfGenerate.WorkOrder | src/lib/sfbilling/generate.ts:298-300 | entries are taken oldest work first, those of one date in the order given, and the same entries |
| SfGenerate.HoursAccounted | src/lib/sfbilling/generate.ts:115-123 | per id, hours on lines + hours covered + hours dropped = hours logged; nothing is dropped unless negative hours reach a capacity |
| SfGenerate.RunHoursConserved | src/lib/sfbilling/generate.ts:586-597 | over the run, line hours, covered hours and dropped hours are the hours logged, and none are dropped unless negative |
| SfGenerate.LinesHoldCharges | src/lib/sfbilling/generate.ts:330-411 | the lines consume exactly the charges, as a multiset of id and hours |
| SfGenerate.BilledAtMostOnce | src/lib/sfbilling/generate.ts:318-411 | an id is on lines no more often than it is among the entries |
| SfGenerate.EntryShown | src/lib/sfbilling/generate.ts:115-123 | an entry is on a line or in the covered list if and only if it does not bring zero or fewer hours to a capacity |
| SfGenerate.EntryOfNoHoursIsLost | src/lib/sfbilling/generate.ts:353-375 | a billable entry that is in neither list |
| SfGenerate.CapacityLeft | src/lib/sfbilling/generate.ts:353-375 | after any prefix, an agreement's capacity has fallen by the lesser of itself and the qualifying hours so far |
| SfGenerate.OldestAbsorbedFirst | src/lib/sfbilling/generate.ts:295-300 | entry k is absorbed exactly as far as the running total is within capacity, and the rest is charged as overage |
| SfGenerate.AbsorbedInTotal | src/lib/sfbilling/generate.ts:302-375 | an agreement absorbs min(capacity, qualifying hours) over the period |
| SfPricing.KeyTellsAgreement | src/lib/sfbilling/generate.ts:330-351 | entries that share a bucket key have the same kind, and agreements that are equal or clash: one id, followed by a bar, begins the other |
| SfPricing.PlainIdsDoNotClash | src/lib/sfbilling/generate.ts:330-351 | ids without a bar, other than a dash, do not clash |
| SfGenerate.BilledWithinLogged | src/lib/sfbilling/generate.ts:116-117 | what a line takes from an entry is some of its hours, and no more than it has |
| SfPricing.LinePricesItsHours | src/lib/sfbilling/generate.ts:191-196 | where no two entries are of agreements that a key can confuse, every entry of a line was charged at the positive rate resolved for it, and the total of a line of positive hours, which all are when entries have positive hours, is within half a cent per hour plus half a cent of hours times those rates; other lines carry the agreement's own rate |
| SfPricing.MistakenRate | src/lib/sfbilling/generate.ts:330-411 | for every two agreements that a key can confuse, a context and two entries on one line whose total is outside that bound |
| SfPricing.PricedIff | src/lib/sfbilling/generate.ts:330-411 | all lines of all entries of two agreements are within the bound in every context if and only if no key can confuse the two |
| SfCapacity.WithinCapacityIff | src/lib/sfbilling/generate.ts:302-375 | over any series of runs an agreement covers no more hours than it has if and only if it has none, all the hours asked of it fit, or one run alone asks for any |
| SfCapacity.CoveredTwice | src/lib/sfbilling/service.ts:91-118 | one included hour covers an hour in each of two runs |
| SfCapacity.CoversWhatADrawTakes | src/lib/sfbilling/service.ts:106-117 | for a block-time agreement a run covers exactly the hours that a draw from its blocks would take |
| SfRates.ChargeRates | src/lib/sfbilling/generate.ts:353-386 | every charge is some hours of an entry at a positive rate: its own where it has one, else the agreement's overage rate where it has one, else its standard rate |
| SfRates.LineAtAgreementRate | src/lib/sfbilling/generate.ts:353-405 | a line of hours beyond a capacity without rates of their own totals hours times the agreement's overage rate, or its standard rate without one, within the rounding |
| SfRates.EntryOutcome | src/lib/sfbilling/generate.ts:318-375 | where each hour of an entry goes: covered as not billable, as fixed-fee work, from the block balance or the included hours left by earlier work, or for want of a rate, and billed otherwise |
| SfGrouping.SameLineIff | src/lib/sfbilling/generate.ts:330-351 | two charges are on one line if and only if they are of one kind, agreement and charge code, and of one ticket where lines are by ticket |
| SfGrouping.EachHasALine | src/lib/sfbilling/generate.ts:376-411 | every charge is on a line |
| SfGrouping.CodeOfLine | src/lib/sfbilling/generate.ts:379-411 | a line's charge code is that of every hour on it |
| Money.RoundDivNear | src/lib/silverfang/project-billing.ts:26-33 | rounding moves a value by at most half a step |
| Money.LineTotalNear | src/lib/billing/line.ts:26-34 | a line's total is quantity times price to the nearest cent, less the discount, with the adjustment |
| Money.RolledUpNear | src/lib/billing/line.ts:26-34 | an average rounded to cents and multiplied back out is within half a cent per unit plus half a cent of the exact value |
| BlockTime.PlanDraw | src/lib/silverfang/block-time.ts:69-101 | the loop draws from the usable blocks in order; drawn hours plus overage are the hours asked, and overage is max(0, hours - available) |
| BlockTime.DrawInOrder | src/lib/silverfang/block-time.ts:89-99 | the drawing loop and what it leaves owed |
| BlockTime.DrawAccounts | src/lib/silverfang/block-time.ts:43-101 | allocations total min(hours, available hours) |
| BlockTime.CandidatesSorted | src/lib/silverfang/block-time.ts:77-88 | candidates come earliest expiry first, those without expiry last |
| BlockTime.NothingOverdrawn | src/lib/silverfang/block-time.ts:29-101 | no block gives more than it has, and an expired block gives nothing |
| BlockTime.DrawnInTotal | src/lib/silverfang/block-time.ts:69-101 | what the plan draws is drawn from the client's own blocks |
| BlockTime.LapsedTaken | src/lib/silverfang/block-time.ts:77-99 | blocks that lapse by t are exhausted before any other is touched |
| BlockTime.DrawIsBest | src/lib/silverfang/block-time.ts:62-101 | no other lawful draw of the same hours leaves more unexpired hours at any later time |
| BlockLedger.AvailableIs | src/lib/silverfang/block-time.ts:29-54 | what is available is what was bought less what was used, on the blocks that have not lapsed |
| BlockLedger.LawfulIff | src/lib/silverfang/block-time.ts:29-41 | a draw is lawful if and only if it leaves lapsed blocks alone and uses no block beyond what was bought |
| BlockLedger.DrawsFromOpen | src/lib/silverfang/block-time.ts:69-101 | the plan draws from a block between nothing and what is bought, unused and not lapsed |
| BlockLedger.FirstExhausted | src/lib/silverfang/block-time.ts:77-88 | no block is touched while one that lapses sooner, or lapses with it and was bought earlier, has hours left |
| BlockLedger.RecordTakes | src/lib/silverfang/block-time.ts:43-101 | recording a plan takes from what is available exactly what was asked, or all there was |
| BlockLedger.NeverBeyondPurchased | src/lib/silverfang/block-time.ts:1-8 | over any series of recorded draws no block gives more than was bought and unused at the start, and the ledger grows by the hours planned |
| BlockLedger.DrawIsBestOnBlocks | src/lib/silverfang/block-time.ts:62-101 | among all lawful draws of the same hours none leaves more bought hours alive later |
| Fees.DueIsFloor | src/lib/sfbilling/generate.ts:263-274 | the periods due are the whole intervals elapsed since the anchor |
| Fees.SomeDue | src/lib/sfbilling/generate.ts:263-274 | some period is due if and only if a whole interval, of 30 days without one of its own, has passed since the watermark or the start |
| Fees.AtMostTwoYears | src/lib/sfbilling/generate.ts:527-546 | a run bills the whole intervals that have passed, and never more than 24 |
| Fees.PushWithinDate | src/lib/sfbilling/push.ts:155-180 | after other periods were billed in between, a push stays within its run's date if and only if there was room for them |
| Fees.TwoRunsOneDay | src/lib/sfbilling/push.ts:155-180 | two runs of one day, both pushed, bill a period that has not ended |
| Fees.WatermarkIsWhatWasBilled | src/lib/sfbilling/push.ts:155-180 | over any series of runs the watermark is the start plus the periods billed, and at most the last run's date |
| Fees.BilledInFull | src/lib/sfbilling/generate.ts:527-557 | when the last run was not cut by the cap, the periods billed in all are floor((date - start) / interval) |
| Fees.SpansTile | src/lib/sfbilling/push.ts:155-180 | the stretches that runs bill, each from the watermark before it and as long as the periods on the line, tile the time from the start to the watermark |
| Fees.BlockLineNear | src/lib/sfbilling/generate.ts:450-481 | a block has a line exactly when it has a positive amount, or else hours times rate of at least half a cent; its total is within half a cent per hour plus half a cent of the amount, or a cent of hours times rate |
| Anniversaries.RecurringDueInPeriod | src/lib/sfbilling/generate.ts:222-250 | the loop over years answers true if and only if the agreement is not yearly or some anniversary of any year lies in the period |
| Anniversaries.YearLength | src/lib/sfbilling/generate.ts:240-246 | years last 365 days, or 366 when leap |
| Anniversaries.AnniversariesApart | src/lib/sfbilling/generate.ts:240-246 | two anniversaries are at least 365 days apart, 29 February falling on 1 March in common years |
| Anniversaries.AnniversaryYear | src/lib/sfbilling/generate.ts:235-247 | an anniversary falls in its own calendar year |
| CivilDays.NextDay | src/lib/sfbilling/generate.ts:240-246 | each date is the day after the one before it, counted from 1 January 1970 at instant 0 |
| CivilDays.ValidIff | src/lib/sfbilling/generate.ts:240-246 | the dates of anniversaries are those that some year has |
| CivilDays.MissingDate | src/lib/sfbilling/generate.ts:240-246 | the only date that years can lack is 29 February, whose anniversary is then on 1 March |
| Anniversaries.AtMostOnePerPeriod | src/lib/sfbilling/generate.ts:222-226 | a period of at most 365 days holds one anniversary if it is due and none otherwise |
| Anniversaries.BilledOncePerAnniversaryIff | src/lib/sfbilling/generate.ts:222-250 | over consecutive periods no more are due than there are anniversaries, and as many if and only if no period holds two |
| Anniversaries.BilledOncePerAnniversary | src/lib/sfbilling/generate.ts:222-250 | consecutive periods of at most 365 days bill every anniversary once |
| Anniversaries.LongPeriodBillsOnce | src/lib/sfbilling/generate.ts:235-249 | wherever two anniversaries are 365 days apart, the 366 whole days from the first hold both and bill one |
| Anniversaries.NewYears | src/lib/sfbilling/generate.ts:240-246 | 1 January of 2025 and of 2026 are such anniversaries |
| SfStore.Database.constructor | src/lib/sfbilling/service.ts:43-62 | a store with projects and nothing logged, generated or billed |
| SfStore.Database.SaveEntry | src/app/(app)/silverfang/actions.ts:728-870 | stores a new entry of positive hours as a draft, or rewrites one that is a draft or rejected and keeps its status, or refuses |
| SfStore.Database.MoveEntry | src/app/(app)/silverfang/timesheet-actions.ts:37-262 | submits a draft or rejected entry; approves, rejects or reopens a submitted one; nothing else |
| SfStore.Database.DropEntry | src/app/(app)/silverfang/actions.ts:893-901 | deletes a draft or rejected entry, or does nothing |
| SfStore.LoadTimeEntries | src/lib/sfbilling/service.ts:43-88 | loads exactly the approved, uninvoiced entries among the rows of the query, in order |
| SfStore.Database.CreateRun | src/lib/sfbilling/service.ts:197-303 | saves a draft of the generator's hour lines for the loaded entries and the given other lines, a step the store allows, and changes nothing else |
| SfStore.Database.EditLine | src/app/(app)/silverfang-billing/actions.ts:323-430 | changes the quantity, total and item of one line of a draft, and not what it charges for |
| SfStore.Database.AddManual | src/app/(app)/silverfang-billing/actions.ts:435-540 | adds a manual line to a draft |
| SfStore.Database.DeleteManual | src/app/(app)/silverfang-billing/actions.ts:545-603 | takes a manual line off a draft, and no other line |
| SfStore.Database.TransitionRun | src/lib/sfbilling/service.ts:306-331 | refuses what the table does not allow and otherwise changes the status, recording the lines at approval |
| SfStore.Database.DeleteRun | src/app/(app)/silverfang-billing/actions.ts:605-619 | deletes a draft or cancelled run, or refuses |
| SfStore.Database.PushRun | src/lib/sfbilling/push.ts:53-278 | refuses a run that cannot be pushed, has no mapped line or whose client is matched to no customer; otherwise sends the mapped lines, marks their entries, blocks and deposits, advances their fee watermarks and settles the status; a refused invoice only fails the run, and so does a failed commit, which leaves the invoice behind |
| SfStore.Database.RecordInvoice | src/lib/sfbilling/push.ts:141-232 | the transaction after an invoice: status, marks and watermarks together |
| SfStore.AdvanceFees | src/lib/sfbilling/push.ts:152-180 | the watermark of each fee line's project moves on by the line's quantity, from where it stood before the push |
| SfStore.HourLinesGenerable | src/lib/sfbilling/service.ts:262-289 | the generator's hour lines name each loaded entry at most once, all approved, and within its hours |
| SfDrafts.LoadedIff | src/lib/sfbilling/service.ts:48-59 | what is loaded is the approved, uninvoiced time of the rows, and all of it |
| SfDrafts.LinesKept | src/lib/sfbilling/service.ts:262-289 | a draft's hour lines have the quantity, total and entries of the generator's, and the item mapped for the charge code or else the kind |
| SfCharges.GenerateRecurring | src/lib/sfbilling/generate.ts:413-448 | the loop gives a line for each managed agreement that is active, priced and due, and no other |
| SfCharges.GenerateBlocks | src/lib/sfbilling/generate.ts:450-481 | the loop gives a line for each block bought in the period, not invoiced yet and with a price |
| SfCharges.GenerateProjects | src/lib/sfbilling/generate.ts:483-557 | the loop gives each project's deposit while it is not invoiced, and its fixed fee for the periods due |
| SfCharges.OthersChargeable | src/lib/sfbilling/generate.ts:413-557 | these lines charge for each block and deposit once, for none already marked, for each agreement's fee once, when it is due, and once for each project's fee, as many periods as are due |
| SfCharges.GeneratedFee | src/lib/sfbilling/generate.ts:413-448 | a run carries an agreement's fee once if it is due in the run's period, and not at all otherwise |
| SfCharges.GenerateAndSave | src/lib/sfbilling/service.ts:197-303 | a whole run, generated and saved from any store, is a step the store allows, and its lines are those of all four sections |
| SfMoney.GeneratedTotals | src/lib/sfbilling/generate.ts:413-557 | what each of these lines totals: the monthly amount to the nearest cent, the block's amount or hours at its rate, the deposit as planned or its percentage of the fee or the budget within half a cent, and the fee to the nearest cent times the periods due |
| SfMoney.DepositIff | src/lib/sfbilling/generate.ts:483-526 | a project has a deposit line if and only if its deposit is unmarked, has a percentage, and is planned above zero or comes to half a cent |
| SfMoney.RecurringIff | src/lib/sfbilling/generate.ts:222-448 | an agreement has a line if and only if it is managed, has a positive amount, is active in the period and, when yearly, has an anniversary in it |
| SfMoney.BlockIff | src/lib/sfbilling/generate.ts:450-481 | a block has a line if and only if it is unmarked, was bought in the period, and has an amount or hours at a rate that come to half a cent |
| SfMoney.FeeIff | src/lib/sfbilling/generate.ts:527-557 | a project has a fee line if and only if it has a fixed fee and an interval of it is over by the end of the period |
| SfMoney.GeneratedAtPrice | src/lib/sfbilling/generate.ts:538-546 | a generated fee line is at its quantity times the fee to the nearest cent |
| SfMoney.FeeMoneyIsTimeBilled | src/lib/sfbilling/push.ts:155-180 | over every history at a steady price the money on recorded invoices for a fixed fee is the price of the intervals that the watermark has moved |
| SfMoney.RecurringMoney | src/lib/sfbilling/generate.ts:413-448 | over every history at a steady price the money invoiced for a recurring fee is the price for each time it is charged for |
| Agreements.ActiveIff | src/lib/sfbilling/generate.ts:252-261 | an agreement is active in a period if and only if it is live at some instant of it, its end date included |
| SfRuns.StepKeepsSound | src/lib/sfbilling/push.ts:141-232 | every step keeps: marked as billed exactly when on a recorded invoice; every hour charged backed by an approved entry; a run's invoiced flag exactly when a recorded invoice is its own; pushable and pushed runs carry the lines last approved |
| SfRuns.AlwaysSound | src/lib/sfbilling/state.ts:11-42 | all of that after any series of steps from an empty store |
| SfRuns.BilledIffOnInvoice | src/lib/sfbilling/push.ts:194-222 | over every history a time entry, block or deposit is marked as billed if and only if it is on a recorded invoice, and on any invoice as long as no commit failed |
| SfRuns.InvoicedIffInvoice | src/lib/sfbilling/push.ts:183-193 | over every history a run says it was invoiced if and only if a recorded invoice is its own |
| SfRuns.PushSendsApprovedLines | src/lib/sfbilling/push.ts:65-125 | a push was preceded by an approval, and its invoice is the mapped part of the lines approved |
| SfRuns.PushedIsFinal | src/lib/sfbilling/state.ts:11-34 | a PUSHED run was approved, was not edited since, and no step changes it |
| SfReviews.AlwaysReviewed | src/lib/sfbilling/state.ts:11-34 | over every history each run past its review was under review with the lines it has, and each approval with the lines it is of |
| SfReviews.SentWasReviewed | src/lib/sfbilling/state.ts:11-42 | what a push sends is of lines that were under review and approved as they are |
| SfReviews.ReachIff | src/lib/sfbilling/state.ts:11-18 | one status can be reached from another if and only if they are the same or the first is neither PUSHED nor CANCELLED |
| SfReviews.ApprovedWasSubmitted | src/app/(app)/silverfang/timesheet-actions.ts:37-262 | over every history time that is approved or invoiced was submitted exactly as it is |
| SfReviews.TimeSavedIff | src/app/(app)/silverfang/actions.ts:728-870 | time is saved if and only if it has hours and is new, or changes a draft or rejected entry |
| SfReviews.TimeDroppedIff | src/app/(app)/silverfang/actions.ts:893-901 | an entry is dropped if and only if it is a draft or rejected |
| SfReviews.TimeMovesIff | src/app/(app)/silverfang/timesheet-actions.ts:37-262 | the moves there are: submitting a draft or rejected entry, and approving, rejecting or reopening a submitted one |
| SfReviews.LinesChangeIff | src/lib/sfbilling/state.ts:36-42 | lines change if and only if the run is a draft |
| SfReviews.DeletedIff | src/app/(app)/silverfang-billing/actions.ts:605-619 | a run is deleted if and only if it is a draft or cancelled |
| SfReviews.InvoicedIff | src/lib/sfbilling/push.ts:65-84 | a push that QuickBooks takes adds an invoice if and only if the run is approved or failed in part and has a mapped line |
| SfReviews.PushedMeansInFullIff | src/lib/sfbilling/push.ts:141-193 | over every history each PUSHED run has all its lines on a recorded invoice if and only if no transition moved one there without |
| SfRuns.EligiblePart | src/lib/sfbilling/push.ts:77-78 | what is sent charges for nothing that is not on the run, and no more often |
| SfRuns.EditedPart | src/app/(app)/silverfang-billing/actions.ts:323-395 | editing a line never changes what it charges for |
| SfRuns.CleanStep | src/lib/sfbilling/push.ts:77-145 | from a store where nothing is charged for twice, a step keeps it so if and only if it does not send something marked as billed or lost |
| SfRuns.NothingBilledTwiceIff | src/lib/sfbilling/service.ts:36-42 | over every history no entry, block or deposit is on two lines of invoices, the same or different ones, if and only if no push sent something marked as billed or on an invoice whose commit failed |
| SfRuns.OnInvoice | src/lib/sfbilling/push.ts:183-222 | a thing is on some invoice exactly when it is marked or on one whose commit failed |
| SfRuns.HoursInvoicedWithinLogged | src/lib/sfbilling/service.ts:283-289 | over every history the hours invoiced for an entry are within its logged hours for each time it was charged for, and within them altogether when no push sent something marked or lost; some are invoiced exactly when the entry is marked or lost |
| SfRuns.CarefulNeverBillsTwice | src/lib/sfbilling/service.ts:36-59 | generating only time, blocks and deposits that are on no unsent run and no lost invoice, and never pushing again a run that has an invoice, is enough for these |
| SfRuns.PushedMeansInvoicedIff | src/lib/sfbilling/state.ts:11-42 | over every history each PUSHED run has an invoice if and only if no transition moved a run without one there |
| SfRuns.InvoicesKeepRunsIff | src/app/(app)/silverfang-billing/actions.ts:605-619 | over every history each invoice's run is still in the store if and only if no run with an invoice was deleted |
| SfRecurring.FeeStep | src/lib/sfbilling/generate.ts:222-226 | from a store where no month or anniversary is charged for twice, a step keeps it so if and only if it does not send the fee for a period that shares one with an invoice |
| SfRecurring.FeeBilledOnceIff | src/lib/sfbilling/generate.ts:413-448 | over every history no instant (of a yearly agreement, no anniversary) is in the periods of two fees invoiced if and only if no push sent the fee for a period that shares one with an invoice that carries it |
| SfRecurring.AlwaysDue | src/lib/sfbilling/generate.ts:413-448 | over every history each fee on a run or an invoice is due in its period, and an invoice charges for each thing once |
| SfRecurring.YearlyFeesCounted | src/lib/sfbilling/generate.ts:222-250 | over every history that repeats no fee, a yearly agreement is charged for at most as often as there are anniversaries in its invoices' periods, and as often if and only if none holds two |
| SfRecurring.ConsecutiveFees | src/lib/sfbilling/generate.ts:222-250 | invoices of consecutive periods, with the fee on each that holds an anniversary, charge for every anniversary once, and with no period over 365 days the fees are as many as the anniversaries |
| SfRecurring.CarefulFeeBilledOnce | src/lib/sfbilling/generate.ts:222-226 | generating a fee only when no invoice and no unsent run bills for the same, and never pushing again a run that has an invoice, is enough |
| Agreements.ShareIff | src/lib/sfbilling/generate.ts:222-250 | two periods bill for one and the same exactly when they overlap, of a yearly agreement in an anniversary |
| SfFees.StepMovesWatermark | src/lib/sfbilling/push.ts:155-180 | every step moves a project's watermark by exactly the quantity of its fee that the step invoices, or not at all when the commit fails |
| SfFees.WatermarkIsRecorded | src/lib/sfbilling/push.ts:155-180 | over every history of interleaved runs the watermark is where it started plus all that is on recorded invoices |
| SfFees.WatermarkIsInvoicedIff | src/lib/sfbilling/push.ts:155-180 | it is where it started plus all that was invoiced if and only if no commit of the project's fee failed |
| SfFees.FeeStretchesTileIff | src/lib/sfbilling/push.ts:155-157 | over every history the stretches that pushes bill, each from the watermark and as long as the quantity sent, follow one another from the start to the watermark, none twice and none left out, if and only if no commit of the project's fee failed |
| SfFees.BilledWhenCompleteIff | src/lib/sfbilling/generate.ts:263-274 | over every history each stretch billed is over by the end of its run's period if and only if no push sent more of the fee than was due then |
| SfFees.DueQuantityIs | src/lib/sfbilling/generate.ts:263-274 | whole periods are within what is due exactly when they are within the generator's count |
| SfFees.AdvanceIsPushFee | src/lib/sfbilling/push.ts:169-178 | a line of whole periods moves the watermark by whole intervals |
| SfWitnesses.RetryBillsTwice | src/lib/sfbilling/push.ts:77-80 | a history of one run, partly mapped and pushed twice, that charges for an hour twice |
| SfWitnesses.TwoDraftsBillTwice | src/lib/sfbilling/service.ts:48-52 | a history of two drafts of one approved hour, both pushed, that charges for it twice |
| SfWitnesses.RetryAfterLostCommit | src/lib/sfbilling/push.ts:259-278 | a history whose commit fails after the invoice, and whose retry charges for the hour again with nothing marked |
| SfWitnesses.FeeGoesOutTwice | src/lib/sfbilling/generate.ts:413-448 | for every agreement and two periods it is due in, a history without a careless step that charges twice for what they share |
| SfWitnesses.FeesBilledTwice | src/lib/sfbilling/generate.ts:413-448 | such histories of a monthly and of a yearly agreement |
| SfWitnesses.LostFee | src/lib/sfbilling/push.ts:259-278 | a history that invoices a period of a fixed fee and leaves the watermark where it was |
| SfWitnesses.PushedByHand | src/lib/sfbilling/state.ts:11-18 | a history that ends with a PUSHED run of a mapped line and no invoice |
| SfWitnesses.InvoiceForgotten | src/app/(app)/silverfang-billing/actions.ts:605-619 | a history that ends with an invoice whose run is gone |
| Calendar.AssignLanes | src/lib/silverfang/calendar.ts:126-163 | the layout of the sorted blocks: no collision, each block as far left as it can be, and lane count = peak concurrency of the block's connected component |
| Calendar.FirstFit | src/lib/silverfang/calendar.ts:147-158 | within a cluster: no collision, leftmost, and a minute at which every lane is in use |
| Calendar.SplitClusters | src/lib/silverfang/calendar.ts:131-145 | the clusters are consecutive segments, held together inside and cut off from each other, and put end to end they are the blocks |
| Calendar.LayCluster | src/lib/silverfang/calendar.ts:147-161 | one cluster laid out, all its blocks with the same lane count |
| Calendar.ClusterIsComponent | src/lib/silverfang/calendar.ts:117-145 | a cluster is exactly one connected component of the overlap graph |
| Calendar.EveryBlockOnce | src/lib/silverfang/calendar.ts:126-163 | every input block is in the output exactly once |
| Calendar.BlockOrder | src/lib/silverfang/calendar.ts:126-129 | blocks are taken by start, and those that start together by end |
| Calendar.AlikeInOrder | src/lib/silverfang/calendar.ts:126-129 | blocks of one interval are taken in the order given |
| Calendar.ShorterFurtherLeft | src/lib/silverfang/calendar.ts:126-158 | of two blocks that start together the shorter one is further left |
| Calendar.LaneEach | src/lib/silverfang/calendar.ts:117-125 | blocks under way at one minute need a lane each |
| Calendar.FewestLanes | src/lib/silverfang/calendar.ts:117-163 | no collision-free assignment uses fewer lanes on a component |
| BusinessHours.StepReachesNextDay | src/lib/silverfang/business-hours.ts:172-187 | the 26-hour step lands on exactly the next local day |
| BusinessHours.BusinessMinutesBetween | src/lib/silverfang/business-hours.ts:147-170 | the measuring loop computes the working time of the days it walks |
| BusinessHours.AddBusinessMinutes | src/lib/silverfang/business-hours.ts:189-222 | the adding loop computes the walk, with its fallback after 800 days |
| WorkingTime.MeasuredIs | src/lib/silverfang/business-hours.ts:147-170 | what is measured between two instants is the number of instants between them whose elapsed time since local midnight is in the day's window, within the walk of 800 days |
| WorkingTime.MinutesBetweenIs | src/lib/silverfang/business-hours.ts:139-170 | the minutes returned are the nearest to that number, or to the elapsed time without a calendar |
| WorkingTime.WalkIs | src/lib/silverfang/business-hours.ts:189-222 | the walk answers r if and only if the instants in the window from the start up to r are as many as asked and the last of them is just before r |
| WorkingTime.AddMinutesIs | src/lib/silverfang/business-hours.ts:179-222 | the due instant: that r, or the elapsed time without a calendar or with too little working time in 800 days, or the start for no minutes |
| WorkingTime.FoundFirst | src/lib/silverfang/business-hours.ts:97-100 | the window of a weekday is that of the first entry for it |
| WorkingTime.OnWorkingDays | src/lib/silverfang/business-hours.ts:90-101 | working time is on days that are no holidays and have an entry for their weekday |
| WorkingTime.CountsBusinessHoursIff | src/lib/silverfang/business-hours.ts:103-109 | on a day whose clock is moved, the instants counted are those inside business hours by the clock if and only if the window has closed, by either reckoning, when it is moved |
| WorkingTime.SpringForwardLags | src/lib/silverfang/business-hours.ts:103-222 | a day on which half past nine is inside business hours and not counted, and an hour from midnight is due at eleven |
| BusinessHours.WalkDays | src/lib/silverfang/business-hours.ts:198-221 | the adding loop for any number of days |
| BusinessHours.AddThenMeasure | src/lib/silverfang/business-hours.ts:147-222 | whenever adding m minutes answers, measuring to the answer gives m |
| BusinessHours.WalkMeasures | src/lib/silverfang/business-hours.ts:189-222 | the same for any walk, in milliseconds |
| BusinessHours.WalkAnswersIff | src/lib/silverfang/business-hours.ts:198-221 | the walk answers if and only if its days hold enough working time |
| BusinessHours.WalkSplits | src/lib/silverfang/business-hours.ts:189-222 | walking a + b is walking a and then b |
| BusinessHours.AddComposes | src/lib/silverfang/business-hours.ts:189-222 | adding m minutes and then n is adding m + n |
| BusinessHours.MeasureAdds | src/lib/silverfang/business-hours.ts:147-170 | working time from a to c is that from a to b plus that from b to c, within the walk |
| BusinessHours.MinutesAdd | src/lib/silverfang/business-hours.ts:147-170 | on whole-minute instants measured minutes add up |
| BusinessHours.EveryDayIsValid | src/lib/silverfang/business-hours.ts:24-31 | a calendar with one window every day, in UTC, meets the assumptions |
| Discrepancies.EditDistance | src/lib/reconciliation/discrepancies.ts:146-162 | the two-row loop computes the Levenshtein recurrence |
| Discrepancies.NextRow | src/lib/reconciliation/discrepancies.ts:153-160 | one row of the table follows from the row before |
| Discrepancies.LevBounds | src/lib/reconciliation/discrepancies.ts:146-162 | the distance lies between the difference of the lengths and the longer length |
| Discrepancies.LevZero | src/lib/reconciliation/discrepancies.ts:146-162 | distance zero if and only if equal |
| Discrepancies.LevSymmetric | src/lib/reconciliation/discrepancies.ts:146-162 | the distance is symmetric |
| Discrepancies.LevTriangle | src/lib/reconciliation/discrepancies.ts:146-162 | the triangle inequality |
| Discrepancies.LevIsFewestEdits | src/lib/reconciliation/discrepancies.ts:146-162 | the distance is the least number of single-character insertions, deletions and replacements |
| Discrepancies.SimilarityRange | src/lib/reconciliation/discrepancies.ts:164-169 | similarity lies in [0, 1], is 1 exactly on equal texts, and is symmetric |
| Discrepancies.MatchesSymmetric | src/lib/reconciliation/discrepancies.ts:171-186 | both comparisons are symmetric |
| Discrepancies.NameTolerance | src/lib/reconciliation/discrepancies.ts:176-186 | names match if and only if one is missing, one contains the other, or 20 times the distance is at most 3 times the longer length |
| Discrepancies.AddressTolerance | src/lib/reconciliation/discrepancies.ts:249-258 | addresses match if and only if one is missing, they are equal, or 10 times the distance is at most the longer length |
| Similarity.Jaccard | src/lib/matching/similarity.ts:22-28 | the counting loop computes shared tokens over all tokens |
| Similarity.JaccardMeans | src/lib/matching/similarity.ts:22-28 | the measure times all tokens is the shared ones; symmetric, zero exactly without a shared token, one exactly for the same tokens |
| Similarity.ScoreMatch | src/lib/matching/similarity.ts:50-86 | confidence is at most 100, and 100 exactly for equal names that are not empty |
| Similarity.ScoreMeans | src/lib/matching/similarity.ts:57-86 | the confidence in names that differ: 95 when they collapse to the same, at least 70 when one is inside the other, else 85 times the shared tokens, 50 more for a shared domain, at most 99, to the nearest hundredth |
| Similarity.SignsSuffice | src/lib/matching/similarity.ts:105-109 | each of the three signs lifts a pair over the default threshold on its own, and a shared domain with another makes 99 |
| Similarity.SignsNeverLower | src/lib/matching/similarity.ts:59-81 | no sign lowers a score |
| Similarity.ProposeMatches | src/lib/matching/similarity.ts:105-137 | scoring every pair, sorting and keeping free pairs computes the greedy matching |
| Similarity.OffersAre | src/lib/matching/similarity.ts:110-124 | exactly the pairs that clear the threshold are offered |
| Similarity.MatchingStable | src/lib/matching/similarity.ts:98-137 | each end is used once, the result is sorted, and every offer turned down shares an end with a chosen pair at least as good |
| Similarity.ExactOnlyLosesToExact | src/lib/matching/similarity.ts:98-137 | an exact pair is chosen or displaced by another exact pair |
| Similarity.CreditBounded | src/lib/matching/similarity.ts:126-137 | distinct ends claim each chosen pair at most once |
| Similarity.MatchingHalfOptimal | src/lib/matching/similarity.ts:105-137 | no one-to-one set of offered pairs has more than twice the confidence chosen |
| Crypto.EnvelopeSplits | src/lib/crypto.ts:83-99 | the five-part envelope, and the four-part older one, split back into what was joined |
| Crypto.EnvelopeLayout | src/lib/crypto.ts:83-99 | the stored text: version, key fingerprint, and the three encoded parts |
| Crypto.OnlyItsKeyOpens | src/lib/crypto.ts:101-109 | trying keys in order opens a value exactly when its key is among them |
| Crypto.DecryptOpens | src/lib/crypto.ts:126-178 | either envelope decrypts to its plaintext if and only if its key is in the ring |
| Crypto.FieldRoundTrip | src/lib/crypto.ts:182-210 | an encrypted field reads back as it was, null and empty included |
| Crypto.FieldReads | src/lib/crypto.ts:126-210 | a stored field in either envelope reads as what was sealed exactly when its key is in the ring, and plain text as it is |
| Crypto.IsCiphertextIff | src/lib/crypto.ts:110-124 | a value counts as encrypted if and only if it has the shape of one of the two envelopes |
| Crypto.ToyCipherIsIdeal | src/lib/crypto.ts:83-109 | what is asked of the cipher can be met |
| CryptoRotate.Column.constructor | src/lib/crypto-rotate.ts:213-229 | one column of stored values |
| CryptoRotate.Column.Rotate | src/lib/crypto-rotate.ts:205-261 | the loop over the rows rewrites them and counts as the pass does, stopping at the limit |
| CryptoRotate.RotateKeepsMeaning | src/lib/crypto-rotate.ts:244-251 | rewriting a value never changes what it reads as |
| CryptoRotate.PassKeepsMeaning | src/lib/crypto-rotate.ts:231-261 | after any prefix of a pass every field reads, or fails to read, as before |
| CryptoRotate.RotationKeepsMeaning | src/lib/crypto-rotate.ts:194-261 | the same over any series of passes, complete or interrupted |
| CryptoRotate.CurrentUntouched | src/lib/crypto-rotate.ts:238-242 | a value already under the primary key is not rewritten |
| CryptoRotate.ColumnStatus | src/lib/crypto-rotate.ts:124-153 | the scan of a column counts the values of each class, up to its limit, and says when it was capped |
| CryptoRotate.ClassMeans | src/lib/crypto-rotate.ts:130-140 | what is written under the primary key, under another, in the older format and not encrypted at all is told apart |
| CryptoRotate.ScanReads | src/lib/crypto-rotate.ts:124-153 | a scan reads the first 5000 values, is capped exactly when there are more, and counts each that is not blank |
| CryptoRotate.RotationStatus | src/lib/crypto-rotate.ts:101-183 | the report holds the scan of every registered column, and is complete if and only if the totals are zero and every column was read in full |
| CryptoRotate.CompleteNeedsOnlyPrimary | src/lib/crypto-rotate.ts:168-182 | when the report is complete, every genuine value of every column reads the same with only the primary key |
| CryptoRotate.RotateSettles | src/lib/crypto-rotate.ts:244-254 | a readable value ends empty or under the primary key |
| CryptoRotate.FullPassSettles | src/lib/crypto-rotate.ts:205-261 | a pass whose limit covers readable rows settles each row it visits, with no failure |
| CryptoRotate.PassLimited | src/lib/crypto-rotate.ts:205-261 | a pass changes no more rows than its limit, and no more than it reports as rotated or encrypted |
| CryptoRotate.CountersAddUp | src/lib/crypto-rotate.ts:231-261 | a pass short of its limit accounts for every row: current ones skipped, plain ones encrypted, others rotated or failed |
| Backfill.FetchAll | src/connectors/superops/sync.ts:108-147 | all pages up to the cap, and the whole list when it fits, with or without a reported total |
| Backfill.SyncState.constructor | src/connectors/superops/sync.ts:804-817 | no cursor, nothing stored |
| Backfill.SyncState.Run | src/connectors/superops/sync.ts:836-921 | one run: pages from the cursor, rows stored, cursor and completion saved unless it failed |
| Backfill.Pages | src/connectors/superops/sync.ts:858-912 | the page loop, with its bound, its repeated-page guard and a failure at any row |
| Backfill.WalkCovers | src/connectors/superops/sync.ts:858-912 | a walk stores every page it passes, and when done every row |
| Backfill.RunKeepsFaithful | src/connectors/superops/sync.ts:804-921 | every run keeps: all pages below the cursor were stored in this sweep, and completion means all pages were |
| Backfill.NothingSkipped | src/connectors/superops/sync.ts:819-921 | the same after any mix of successful, bounded and failed runs |
| Backfill.RunAdvancesIff | src/connectors/superops/sync.ts:858-917 | a run that does not fail advances or completes if and only if the cursor is within the page cap |
| Backfill.StopsAtBound | src/connectors/superops/sync.ts:858-912 | a run that is neither done nor failed stops at the first page boundary at which it has read as many rows as it may, or at the page cap |
| Backfill.FinishesIff | src/connectors/superops/sync.ts:804-921 | every series of runs, of which as many succeed as the cap has pages, completes a sweep if and only if the list is shorter than the cap, or as long and its total reported |
| Backfill.NeverCompletes | src/connectors/superops/sync.ts:858-917 | otherwise no series of runs ever completes one |
| Backfill.Progress | src/connectors/superops/sync.ts:858-917 | until a sweep completes, every run that does not fail moves the cursor on by a page at least |
| Backfill.SticksIff | src/connectors/superops/sync.ts:858-917 | from scratch, some runs leave the cursor beyond the cap if and only if the list is longer than the cap, or as long and without a reported total |
| Backfill.StuckForGood | src/connectors/superops/sync.ts:804-817 | beyond the cap no run stores, advances or completes anything |
| Backfill.SomeListSticks | src/connectors/superops/sync.ts:911-912 | a list on which the sweep sticks |
| Backfill.StuckWithEverything | src/connectors/superops/sync.ts:911-912 | a list of exactly the cap without a reported total sticks with every row stored |
| RateLimit.Limiter.constructor | src/lib/rate-limit.ts:13-21 | no window on record |
| RateLimit.Limiter.Allow | src/lib/rate-limit.ts:13-40 | one call resets or counts as decided, and reports what remains |
| RateLimit.RemainingIsExact | src/lib/rate-limit.ts:13-40 | so many more calls as are reported as remaining are let through, and no more, while the window cannot lapse |
| RateLimit.OneWindow | src/lib/rate-limit.ts:19-40 | while a window cannot lapse only its room is admitted |
| RateLimit.AtMostTwiceLessOne | src/lib/rate-limit.ts:13-40 | an interval of the window's length admits at most twice the limit less one |
| RateLimit.BoundReached | src/lib/rate-limit.ts:13-40 | for every limit and window there are calls that reach it |
| RateLimit.KeepsLimitIff | src/lib/rate-limit.ts:13-40 | no interval of the window's length admits more than the limit, whatever came before, if and only if the limit is one or the window an instant |
| RateLimit.RaceBound | src/lib/rate-limit.ts:19-40 | with n callers between read and write an open window admits at most limit + n - 1 |
| RateLimit.RaceReached | src/lib/rate-limit.ts:19-40 | and there is an interleaving that does |
| Dso.ComputeBooks | src/lib/reports/dso.ts:179-232 | the loops keep every figure equal to the sum of its own part of the matched cash, the largest lateness of each customer, and revenue by customer and by year equal to the sum of its invoices |
| Dso.Revenue | src/lib/reports/dso.ts:179-187 | the loop over the invoices: a row for every customer, and what each was invoiced, in all and by year |
| Dso.RevenueAgrees | src/lib/reports/dso.ts:179-187 | revenue comes to the same by customer, by customer and year, and over all invoices |
| Dso.MaxLateIs | src/lib/reports/dso.ts:217 | the lateness kept is the largest of the customer's matched cash, or zero |
| Dso.AddPayment | src/lib/reports/dso.ts:199-232 | the inner loop posts one payment's lines |
| Dso.StaysBalanced | src/lib/reports/dso.ts:206-230 | posting one amount keeps every figure equal to its sum |
| Dso.MatchedIsPositive | src/lib/reports/dso.ts:200-203 | only positive amounts on known invoices are matched |
| Dso.BooksAgree | src/lib/reports/dso.ts:190-232 | cash, day-weighted, late-weighted, on-time and drag totals are the same globally, by customer, and where they are kept by month and by yearly cohort |
| Dso.PortfolioBetweenCustomers | src/lib/reports/dso.ts:333-336 | portfolio DSO lies between the DSO of two customers, as fractions |
| Dso.CustomerDragCovers | src/lib/reports/dso.ts:210-217 | a customer's drag is at least its follow-up score plus 30 days on what was over 30 days late |
| Dso.TierMeans | src/lib/reports/dso.ts:40-46 | what each tier says of a customer's matched cash and lateness, in whole numbers, and that only a customer without matched cash has no tier |
| Dso.TiersPartition | src/lib/reports/dso.ts:258-268 | over the books, the tiers account for every customer once, for all the cash and for all the drag |
| DsoFigures.MatchedMeans | src/lib/reports/dso.ts:199-205 | an allocation counts if and only if it is positive and its invoice known, and is as many days late as the payment is after the due date, or after the invoice where none is set |
| DsoFigures.LatenessMeans | src/lib/reports/dso.ts:206-217 | a customer's cash is all on time exactly when it has no drag and no lateness, and none is over 30 days late exactly when the largest lateness is at most 30 |
| DsoFigures.SameDays | src/lib/reports/dso.ts:206-217 | cash that all took the same days weighs in with exactly those |
| Proration.BilledIsOverlap | src/lib/billing/proration.ts:43-63 | the days billed are those the activity and the period share |
| Proration.BilledDaysSplit | src/lib/billing/proration.ts:14-63 | splitting a period splits its billed days |
| Proration.FactorInRange | src/lib/billing/proration.ts:55-62 | the factor is in [0, 1], and 1 when every day is billed |
| ProrationCharges.FactorNear | src/lib/billing/proration.ts:43-63 | the factor is the shared days over the days of the period, to the nearest millionth |
| Proration.GenerateBillingLines | src/lib/billing/generate.ts:89-231 | the loop gives the lines and the exceptions of every subscription, in order |
| Proration.SubscriptionLines | src/lib/billing/generate.ts:137-231 | a line for the seats active all period, then one per addition from its own day |
| Proration.SeatsBilledOnce | src/lib/billing/generate.ts:137-149 | a priced subscription bills exactly max(quantity, seats added) seats |
| Proration.ChargeAtMost | src/lib/billing/generate.ts:159-231 | it charges at most price times those seats plus half a cent a line |
| ProrationCharges.LineNear | src/lib/billing/line.ts:26-34 | a line's total is near its seats times the price times its days over those of the period, both ways |
| ProrationCharges.ChargeNear | src/lib/billing/generate.ts:137-231 | so is a subscription's charge, over all its seats and their days, at the rules' price or else the vendor's |
| ProrationCharges.PartsAddUp | src/lib/billing/proration.ts:14-63 | billed at one price a day, the two parts of a period charge what the whole does, within the rounding |
| ProrationCharges.AddedSplit | src/lib/billing/generate.ts:137-149 | splitting a period puts each addition in one part |
| ProrationCharges.ExceptionsAre | src/lib/billing/generate.ts:93-133 | exceptions are raised exactly for subscriptions without an item or with one that is not mapped, and for those with an item and no price |
| Proration.NothingDropped | src/lib/billing/generate.ts:93-133 | a subscription without lines has an exception or no seats |
| Csv.ToCsv | src/lib/reports/csv.ts:11-28 | the loop prints the header and every row |
| Csv.CellParsed | src/lib/reports/csv.ts:21-28 | a printed cell reads back as its text, whatever follows |
| Csv.QuotedIff | src/lib/reports/csv.ts:21-28 | a cell is printed as it is if and only if it holds no quote, comma or line break |
| Csv.RecordParsed | src/lib/reports/csv.ts:11-20 | a printed row reads back as its cells |
| Csv.CsvRoundTrip | src/lib/reports/csv.ts:11-28 | a printed table reads back as its header and every cell, null as empty |
| Csv.CsvInjective | src/lib/reports/csv.ts:11-28 | two tables of texts that print alike are the same table |

## Left out

- Descriptions, notes and estimated costs: the same rounding with no further state.
- Hours that are not numbers, or not on the 0.0001 grid, and a prepaid block without positive hours, which the form that records blocks refuses.
- LinePricesItsHours: assumes that no two entries are of agreements that a bucket key can confuse, and PricedIff says exactly which those are; a line of no positive hours has no bound.
- CreateRun: takes the rows of the time query and the mapped items as given; which rows a client and a period select is the database's.
- PushRun: pushes of one run do not overlap, and the status that a failed push leaves is written.
- Marking a project's deposit as invoiced by hand.
- Timesheets, which move their entries together; in SfStore each entry moves by itself. Creating runs in bulk, which creates them one by one.
- An agreement's terms, and a project's dates and interval, are fixed during a history.
- Capacity is one figure an agreement in SfCapacity; blocks that are bought or expire between runs are not followed there.
- Dates of the years 0 to 99, which `Date.UTC` moves to the twentieth century.
- Local days outside 23 to 25 hours, windows that close after the next day starts, and fractional minutes to add.
- CountsBusinessHoursIff: one change of the clock in a day, by whole minutes, and windows within the day's 1440 minutes.
- MinutesAdd: holds on whole-minute instants within the walk of 800 days; elsewhere each measurement rounds on its own.
- The printers and parsers of clock times, day slots, hour marks and block placement.
- Normalising names and addresses (regular expressions, Unicode): the comparisons are on the normalised texts, and tokens are sets.
- The list of discrepancies that the comparisons feed.
- AES-GCM and SHA-256: a key opens exactly what it sealed, fingerprints tell keys apart, and encoded parts hold no colon. Lookup columns rebuilt in the same write, and a report when the primary key itself cannot be loaded, are not modelled.
- FullPassSettles: one pass over rows it has read; which slice of a table a pass reads is up to the database, so nothing is claimed of a series of passes.
- Rows that appear, move or disappear on the remote side during a sweep, and the other sweeps, which are the same loop.
- The limiter's behaviour when its store fails, and two callers that reopen a lapsed window at once.
- ComputeBooks: the rounding of displayed figures, the names of customers, top lists and movers are not kept.
- Price rules, which enter as the price they resolve to.
- CSV cells that are numbers: a cell is the text it prints as, or nothing.
