# Zezet ERP: the money side, verified

A Dafny model of the backend's money side as one state machine, and of its report
loops as refinements of filtered sums. Money is integer cents, days are integers,
and each table is a map from id to row.

- `Documents`, `DocumentLaws`, `DocumentContents`, `Numbering`, `DocumentServices`:
  invoices and pay runs. The two services run the same protocol over different
  columns: trips not yet covered are snapshotted into frozen lines, the document takes
  the next number of its year, and a transition table with two terminal states
  governs it.
- `Treasury`, `TreasuryLaws`, `AccountDefaults`, `TreasuryServices`: accounts, the
  single-entry ledger and the event-driven auto-post; handlers and the account
  requests that read before they write are split at each await and interleaved
  freely with every other step.
- `Erp`, `ErpTheorems`, `DocumentTheorems`, `PostContents`, `PostAccounts`,
  `DeleteWindow`, `ErpRuns`, `NumberRuns`: the composition, its reachable states, what
  holds in them and along runs, what documents and ledger rows hold, and runs that
  reach the states in which requests get in each other's way or a year's numbers are
  stuck.
- `Overlaps`, `OverlapRuns`: document requests that overlap without restriction.
- `Aging`, `Reporting`, `Statements`, `RangeReports`: the aggregation loops, their
  conservation laws and their agreement with each other.
- `Stripper`, `StripperLaws`: the financial-field stripper over an object graph with a
  visited set, cycles included.
- `Usernames`, `RefreshTokens`, `Odometer`: the suffix search and its retry loop,
  refresh-token rotation, odometer warnings.
- `Common`, `Sums`, `Numerals`, `Ordering`: shared types, finite sums, decimal text
  and text order, sorted listings.

The services are classes whose methods, written out as the source writes them, are
proved against the step functions of the state machine and say what a caller sees;
the theorems are about every run of those steps.

## Assumptions

- In `Documents` and `Erp`, creates of one kind do not overlap each other: `create`
  runs in a transaction without an isolation level (`src/billing/billing.service.ts:85`,
  `src/payroll/payroll.service.ts:81`). Everything else may fall between its reads
  and its insert. Updates and deletes of documents are one step there, although they
  read and write outside a transaction (`src/billing/billing.service.ts:167`, `:186`).
- `Overlaps` drops both assumptions: any number of creates, updates and deletes of one
  kind, each split at its awaits. `Overlaps.BilledOnceIff` and `Overlaps.OnePostIff`
  are the exact conditions under which `ErpTheorems.TripBilledOnce` and
  `ErpTheorems.OnePostPerSource` survive, and `OverlapRuns` has a run against each.
- Account requests are not assumed to be one step: deletion, creation and promotion
  are split at their awaits (`src/treasury/treasury.service.ts:63-115`) and overlap
  freely. That at most one account is default is therefore no invariant:
  `ErpTheorems.AccountsSound` gives the exact condition on a run,
  `ErpTheorems.SerialRequestsKeepOneDefault` says it holds when creates and
  promotions do not overlap, and `ErpRuns` has the two clashes. Updates that promote
  nothing are one step.
- Generated ids are fresh. A handler's id becomes the id of the row it inserts.
- The bookkeeping fields marked in `Erp.State`, `Treasury.State` and
  `RefreshTokens.State` record what happened; no step reads them.

## Where the code and its documentation disagree

- Aging bands: `docs/decisions/0004-billing-invoices.md:39-40` lists four bands
  ending at 60+; the code and `src/billing/dto/invoice-response.dto.ts:63-66` have
  0..30, 31..60, 61..90 and older. The model follows the code.
- Sequential numbers (`docs/decisions/0004-billing-invoices.md:37-38`): the last
  number is found by text order, so after 9999 the next one is 10000 forever and
  creates are refused. `ErpTheorems.NumberRefusedIff` gives the exact condition, and
  `NumberRuns.CreateRefusedAfterNines` a run.
- Utilization is documented as a 0..1 ratio but counts trips of inactive trucks
  (`RangeReports.UtilizationExceedsOne`, `RangeReports.UtilizationWithinUnit`).
- Stripping is documented as a deep copy without financial keys
  (`src/rbac/financial-fields.interceptor.ts:48-49`); an object reached by a second
  path, or by a cycle, is returned as it is. `StripperLaws.SurvivesIff` gives the
  exact condition on the input.
- The account delete is meant to preserve ledger history; a row inserted between
  its count and its delete is lost to the cascade
  (`ErpRuns.InsertInsideWindowIsLost`, `ErpRuns.ArrivalInsideWindowIsLost`,
  `DeleteWindow.DeleteLosesIff`).
- The event is meant to fire once, when an invoice or run enters paid, and paid and void
  are meant to be terminal (`src/billing/billing.service.ts:26-32`); a status read before
  an overlapping update is stale when it is written (`Overlaps.OnePostIff`,
  `Overlaps.BilledOnceIff`).
- Only one account is meant to be default (`src/treasury/treasury.service.ts:82`);
  overlapping promotions or creates leave two
  (`ErpRuns.OverlappingPromotionsClash`, `ErpRuns.OverlappingCreatesClash`).

## Model

| member | source | states |
|---|---|---|
| ErpTheorems.TripBilledOnce | src/billing/billing.service.ts:85-119 | In every reachable state two lines of non-void invoices with the same trip are the same line of the same invoice, whatever voids, deletions, payments or trip edits fell between the reads of a create and its insert |
| ErpTheorems.TripPaidOnceAndWhole | src/payroll/payroll.service.ts:180-236 | Two lines of non-void runs with the same trip are on one run, in different roles unless identical, and a helper line directly follows its trip's driver line |
| ErpTheorems.LinesAreSnapshots | src/payroll/payroll.service.ts:81-104 | In every run each document was stored by one create; its lines are the snapshot of exactly the trips that matched the request and were uncovered when that create began, in order, with the pay, workers and amounts they had when that create read them, and it has kept them since |
| ErpTheorems.LinesMatchDocument | src/billing/billing.service.ts:283-306 | Every line is dated in the period of its document, carries what its trip was worth when the create read it, and on an invoice that trip was of the invoice's client; the trip was on no non-void document of the kind when the create began |
| DocumentTheorems.InvoiceBillsItsTrips | src/billing/billing.service.ts:92-115 | In every run an invoice has one line for each trip its create read, in that order, with the trip's bill amount, date, truck code and route label at the read, and its total is what these trips bill by the report's own sum |
| DocumentTheorems.RunPaysItsTrips | src/payroll/payroll.service.ts:210-236 | In every run a pay run has, for each trip its create read and no other, the driver's line and, exactly if there was a helper, the helper's, with the worker, pay, date and truck code at the read; its total is what these trips pay drivers and helpers by the report's own sums |
| DocumentTheorems.CreateReadsExactly | src/billing/billing.service.ts:283-315 | A create reads exactly the trips dated in its period, of its client on an invoice, that were on no line of a non-void document when it began, each once, by date and sequence number |
| DocumentTheorems.StartsAsDraft | src/billing/billing.service.ts:70-121 | A document starts as an unpaid draft with the client, period, issue date, notes and total of its request, at a time when the client existed, numbered INV- or PAY-, the year, and a sequence number zero-padded to four digits |
| ErpTheorems.DocumentsFrozen | src/billing/billing.service.ts:163-203 | Between any two moments of a run a document keeps its number, client, period, issue date, lines, total and worker count, and once paid or void its status and payment |
| ErpTheorems.DocumentsConsistent | src/billing/billing.service.ts:92-118 | In every reachable state a total is the sum of its lines, the payment date is set exactly when paid, amountPaid is the total when paid and 0 otherwise, and workerCount counts the distinct workers of the lines |
| ErpTheorems.NumbersStayUnique | src/billing/billing.service.ts:326-338 | Document numbers are unique in every reachable state, and an insert whose number still has four sequence digits is never refused for its number |
| ErpTheorems.OnePostPerSource | src/treasury/treasury.service.ts:293-332 | For each invoice, run or cost id, handlers in flight + ledger rows + ended posts is exactly 1 if the source is owed a post and 0 otherwise, in every interleaving of handler steps with account and transaction edits |
| ErpTheorems.DedupeNeverFires | src/treasury/treasury.service.ts:303-308 | In every run the duplicate check of the auto-post finds nothing: the one post of the source is the handler itself |
| ErpTheorems.LedgerConserves | src/treasury/treasury.service.ts:348-386 | Over every run, automatic rows + amounts in flight + skipped, failed, hand-deleted and cascaded posts equal the totals of paid invoices, of paid runs, and of all costs ever created (removed ones included) |
| ErpTheorems.RowMatchesDocument | src/treasury/treasury.service.ts:348-386 | Every automatic row carries the direction and amount its source owes: invoices in, runs and costs out |
| PostContents.PaymentRowHolds | src/treasury/treasury.service.ts:348-373 | In every run the automatic row of a paid invoice or run carries the document's total, is dated when it was paid, is a client payment coming in or a salary going out, and names the document's number, an invoice's also the client as named at the payment |
| PostContents.CostRowHolds | src/treasury/treasury.service.ts:375-399 | In every run the automatic row of a cost carries the cost's amount, date and truck, its category with repair counted as maintenance, and the truck's code and the note as of its creation |
| PostContents.CostStep | src/costs/costs.service.ts:41-67 | Creating a cost on a known truck stores it and starts one handler that asks for exactly that cost's post; an unknown truck changes nothing |
| PostContents.RemoveCostStep | src/costs/costs.service.ts:81-88 | Removing a cost drops that cost only and touches neither ledger nor handlers |
| PostContents.EntryStep | src/treasury/treasury.service.ts:152-194 | Entering a transaction adds exactly the row given, with no source, when account and truck are known, and otherwise changes nothing |
| PostAccounts.RowsAreOnChosenAccounts | src/treasury/treasury.service.ts:334-346 | In every run each automatic row hangs on an account that was active and default when its handler looked for such a one, or, when the handler found none, on one that was the oldest active when it then looked for that |
| ErpTheorems.AccountsSound | src/treasury/treasury.service.ts:63-101 | At most one account is default throughout a run, with creates and promotions split at their awaits and overlapping freely, if and only if each of them that ended was safe in the state it ended in: a create that had counted no account found none default, and a promotion that had demoted the others found none of them default again, or its own account gone |
| ErpTheorems.SerialRequestsKeepOneDefault | src/treasury/treasury.service.ts:63-101 | In every run in which at most one create or promotion is in flight at a time, at most one account is default |
| ErpTheorems.RowsAlwaysHang | src/treasury/treasury.service.ts:104-115 | In every reachable state every ledger row hangs on an existing account |
| ErpTheorems.NumberRefusedIff | src/billing/billing.service.ts:326-338 | In every reachable state the number a create would take is already stored if and only if the number that sorts last in its year is all nines and is not the greatest |
| Overlaps.BilledOnceIff | src/billing/billing.service.ts:85-186 | With any number of creates, updates and deletes in flight, each split at its awaits: every trip is on at most one non-void document throughout a run if and only if each insert, and each stale write that brings a void document back, finds the trips it takes on no non-void document |
| Overlaps.TripOnceIff | src/billing/billing.service.ts:85-119 | That no two non-void documents cover a trip is the same as: two lines of non-void documents for one trip are on one document, and on an invoice are one line |
| Overlaps.OnePostIff | src/billing/billing.service.ts:163-204 | With requests overlapping likewise: throughout a run a paid document has exactly one post, under way, in the ledger or ended, and any other has none, if and only if no write of a status and no delete hits a document that is paid by then |
| Overlaps.FreshIsSafe | src/payroll/payroll.service.ts:125-174 | A write or delete that finds the status its read found takes no covered trip and hits no paid document, because paid and void are terminal |
| Overlaps.WritesInTimePostOnce | src/payroll/payroll.service.ts:125-174 | In a run in which every write finds the status its read found, a paid document has one post and any other none |
| Overlaps.WholeUpdateIsSteps | src/billing/billing.service.ts:163-204 | The one-step update is its read and its write taken without interruption, and announces an event in the same cases |
| Overlaps.WholeAnnounceIsEmit | src/billing/billing.service.ts:186-202 | Uninterrupted, the event a split update announces is the one the one-step update emits, and the request is over |
| Overlaps.WholeDeleteIsSteps | src/billing/billing.service.ts:207-219 | The one-step delete is its read and its delete taken without interruption |
| OverlapRuns.StaleWriteBillsTwice | src/billing/billing.service.ts:167-186 | A run in which an update that read a draft pays it after it was voided and its trip billed again, so that the trip is on two non-void invoices |
| OverlapRuns.OverlappingUpdatesPostTwice | src/billing/billing.service.ts:167-202 | A run in which two overlapping updates both enter paid and the ledger holds the invoice twice |
| Erp.RunKeeps | src/billing/billing.service.ts:163-203 | The joint invariant of invoices, runs, treasury and costs holds at every position of every run |
| Erp.StepKeeps | src/treasury/treasury.service.ts:293-332 | Every step (trip rewrite, document step, cost creation or removal, treasury step) keeps the joint invariant |
| Erp.DocumentStepKeeps | src/billing/billing.service.ts:189-202 | Entering paid and emitting the event keep the one-to-one match between what is owed and the posts |
| Erp.CostStepKeeps | src/costs/costs.service.ts:41-67 | A cost is owed one post from its creation on; an unknown truck changes nothing |
| DocumentLaws.ApplyKeeps | src/billing/billing.service.ts:70-121 | Every step of a book keeps lines, totals, payment fields, unique numbers, cover and the create in flight consistent, whatever the trips have become |
| DocumentLaws.ApplyFreezes | src/billing/billing.service.ts:163-219 | No request alters a surviving document beyond status, payment and notes: number, client, period, issue date, lines, total and worker count stay; a new document holds the lines of the create in flight |
| DocumentLaws.ApplyPays | src/billing/billing.service.ts:180-202 | What is paid changes exactly in the step that emits the event, by the frozen total of the document that entered paid |
| DocumentContents.UpdateSucceedsIff | src/billing/billing.service.ts:163-186 | An update succeeds exactly when the document exists and may take the status asked for: paid unless void, void unless paid, draft if draft, sent for a draft or sent invoice, approved for a draft or approved run; it then sets status, notes and, on entering paid, the payment, and changes nothing else |
| DocumentTheorems.StatusMoves | src/payroll/payroll.service.ts:35-40 | Along a run a document appears as a draft and from state to state keeps its status or takes one it may become |
| DocumentTheorems.MoveIsOpen | src/payroll/payroll.service.ts:125-143 | Whatever status a document of a run may take, the run can go on to a state in which it has it |
| DocumentTheorems.EachStatusReached | src/billing/billing.service.ts:26-32 | Every status of the kind is reached by a document of some run from the start |
| DocumentLaws.InsertCoversOnceIff | src/billing/billing.service.ts:85-119 | An insert leaves every trip with one document if and only if the lines in flight hold no trip covered by now |
| DocumentLaws.BillablePartition | src/billing/billing.service.ts:283-324 | For any client and range, billable trips and trips on non-void lines partition the matching trips |
| DocumentLaws.VoidReleases | src/billing/billing.service.ts:163-186 | Voiding makes exactly the still-existing trips of the document billable again, under the client and date they carry now, and no others |
| DocumentLaws.RemoveReleases | src/billing/billing.service.ts:207-219 | Deleting a draft releases its trips in the same exact way |
| DocumentLaws.CoverWithout | src/billing/billing.service.ts:289-292 | Giving up one document removes exactly its trips from the cover |
| DocumentLaws.SnapshotTrips | src/payroll/payroll.service.ts:210-234 | The lines of a read hold exactly the trips read |
| DocumentLaws.SnapshotShape | src/payroll/payroll.service.ts:210-234 | Each trip read is on the snapshot once and whole: one billing line, or a driver line followed by its helper line if any |
| DocumentLaws.CreateCanGoOn | src/billing/billing.service.ts:85-119 | A create in flight is never stuck: an ordered read of its trips and a next number always exist, the number is the only one it can get, and each step moves it on |
| DocumentLaws.NextNumberUnique | src/billing/billing.service.ts:331-337 | The next number is determined by the stored ones |
| Numbering.StepKeepsSpread | src/billing/billing.service.ts:326-338 | Every step of a book keeps this of its numbers: a shorter number beside a longer one is at most 1, 10, 100, ... for its length, or the longer one is the first of the next length |
| Numbering.SuccessorSpreads | src/billing/billing.service.ts:331-337 | The successor of the number that sorts last keeps any other number spread in that sense |
| DocumentLaws.NextIsMaxPlusOne | src/billing/billing.service.ts:326-338 | While no number of the year exceeds 9998 the next number is the numeric maximum plus one, and fresh |
| DocumentLaws.StuckAfterNines | src/payroll/payroll.service.ts:238-250 | Once a year holds an all-nines number and its successor and nothing greater, the next number is that successor again |
| DocumentLaws.UnreadableLast | src/billing/billing.service.ts:336-337 | What follows the prefix in the number that sorts last fails to parse exactly when it does not begin with a digit; the next number then ends in 0NaN |
| NumberRuns.ReachNumber | src/billing/billing.service.ts:326-338 | For invoices and for pay runs and every n, a run from the start brings the year to the one number n: create the next document, delete the draft before it |
| NumberRuns.CreateRefusedAfterNines | src/billing/billing.service.ts:326-338 | For every all-nines number, 9999 the first, a run from the start in which a create of a trip nobody holds is refused for the number it was given |
| NumberRuns.CreateRefusedAfter9999 | src/billing/billing.service.ts:326-338 | A run from the start in which a create of a trip nobody holds is refused because the number it was given, 10000, is stored |
| DocumentLaws.NextAfterLast | src/billing/billing.service.ts:326-338 | The computed number is one more than the stored number that sorts last among the numbers of its year |
| DocumentLaws.PrefixTellsYear | src/billing/billing.service.ts:326-338 | A number with the prefix of one year belongs to that year |
| Numerals.ParseOfPad | src/billing/billing.service.ts:336-337 | Zero-padding and parsing a sequence number is the identity for every number |
| Numerals.PadOrderIsNumeric | src/billing/billing.service.ts:331-335 | Up to 9999, text order on padded numerals is numeric order |
| Numerals.PadSuccessorOrder | src/billing/billing.service.ts:331-337 | A padded successor sorts after its numeral if and only if the numeral is not all nines |
| Numerals.TextOrderIsNumeric | src/billing/billing.service.ts:331-335 | On numerals of equal length text order is numeric order |
| DocumentServices.DocumentService.FetchTrips | src/billing/billing.service.ts:283-324 | The read returns exactly the matching uncovered trips, once each, ordered by date and sequence |
| DocumentServices.DocumentService.NextNumber | src/payroll/payroll.service.ts:238-250 | The method returns the successor of the last number of the year in text order, or the first number |
| DocumentServices.DocumentService.SnapshotLines | src/payroll/payroll.service.ts:210-234 | Accumulating line by line yields the lines of the trips read, each with what its trip bills or pays, and their sum |
| DocumentServices.DocumentService.Create | src/billing/billing.service.ts:70-121 | A create fails exactly for a bad range, an unknown client, nothing to cover or a taken number, and otherwise adds one draft of the request whose lines bill or pay the trips read, and nothing else; it is the four steps of the state machine taken in a row |
| DocumentServices.DocumentService.Change | src/billing/billing.service.ts:163-203 | An update is refused exactly on an unknown document or a status it may not take, changes that document as asked and no other, and starts one handler exactly when it enters paid, asking for that document's payment |
| DocumentServices.DocumentService.Delete | src/payroll/payroll.service.ts:162-175 | Succeeds exactly on a draft, removes it and no other, and releases exactly its trips |
| DocumentServices.CostsService.Create | src/costs/costs.service.ts:41-67 | A cost on a known truck is stored and its event sent once, asking for the cost's amount, date, truck, category and description; an unknown truck changes nothing |
| DocumentServices.CostsService.Remove | src/costs/costs.service.ts:81-88 | Removing a cost deletes the row and leaves the ledger untouched |
| Aging.Report | src/billing/billing.service.ts:223-277 | One row per client with something outstanding, under the client's name, each band holding exactly that client's sent invoices of that age; the row total is the sum of its bands, the grand total everything outstanding; larger totals first |
| Aging.GrandIsSentTotals | src/billing/billing.service.ts:223-277 | In every reachable state the grand total is the sum of the totals of all sent invoices, since sent implies nothing paid |
| Aging.BandsOnlyAge | src/billing/billing.service.ts:242-257 | As the clock advances an invoice only moves to an older band |
| Aging.BandBoundaries | src/billing/billing.service.ts:248-257 | The bands are 0..30, 31..60, 61..90 and older, turning at midnights |
| Treasury.ApplyKeeps | src/treasury/treasury.service.ts:293-346 | No treasury step in any interleaving creates, loses or alters a post; each post is in one place, and every ledger row hangs on an existing account |
| Treasury.EmitKeeps | src/treasury/treasury.service.ts:348-386 | An emitted event adds exactly one post |
| Treasury.AccountRequestShape | src/treasury/treasury.service.ts:63-101 | Requests on accounts, but for the delete itself, touch neither rows nor handlers and drop no account |
| AccountDefaults.UpdateKeepsOneDefault | src/treasury/treasury.service.ts:77-101 | A whole promotion leaves its account the only default; any other update grants nothing; no account comes or goes |
| AccountDefaults.PromoteOnStaleDemotion | src/treasury/treasury.service.ts:81-98 | Finishing a promotion keeps the default unique if and only if no other account is default by then, or its own account is gone |
| AccountDefaults.WholeRequestsAreSteps | src/treasury/treasury.service.ts:63-101 | The uninterrupted create and promotion are their awaited steps in sequence |
| AccountDefaults.StepKeepsUniqueIff | src/treasury/treasury.service.ts:63-101 | A step keeps the default unique if and only if each create or promotion it ends was safe in the state before, by what its count or demotion had found |
| AccountDefaults.SerialStep | src/treasury/treasury.service.ts:63-101 | While at most one create or promotion is in flight every step keeps the default unique |
| AccountDefaults.CreateKeepsOneDefault | src/treasury/treasury.service.ts:63-75 | A new account is default exactly when it is the first; the others stay as they are |
| AccountDefaults.InsertOnStaleCount | src/treasury/treasury.service.ts:63-75 | Finishing a create on an earlier count keeps the default unique if and only if that count found an account or nothing is default by now |
| ErpRuns.OverlappingCreatesClash | src/treasury/treasury.service.ts:63-75 | A run from the empty treasury in which two overlapping first creates leave two defaults |
| ErpRuns.OverlappingPromotionsClash | src/treasury/treasury.service.ts:81-98 | A run from the empty treasury in which two overlapping promotions leave two defaults |
| DeleteWindow.DeleteLosesIff | src/treasury/treasury.service.ts:104-115 | In every run the delete of an account loses a ledger row to the cascade if and only if some step between its row count and its delete put that row on the account and no later one took it off; the window holds steps of every kind, events that arrive in it included |
| DeleteWindow.DeleteSparesLedger | src/treasury/treasury.service.ts:104-115 | In every run the delete keeps the ledger, despite the cascade, if and only if no row put on the account in its window stayed there |
| DeleteWindow.RowMoves | src/treasury/treasury.service.ts:104-115 | One step of a run, of any kind, changes whether a row is on an account exactly by a treasury step that puts it there or takes it off |
| TreasuryLaws.RowOnStep | src/treasury/treasury.service.ts:104-115 | One treasury step changes whether a row is on an account exactly by putting it there or taking it off |
| TreasuryLaws.HandlerMovesOn | src/treasury/treasury.service.ts:293-332 | A handler's own step brings it nearer its end, and no other step of the treasury touches it |
| ErpRuns.InsertInsideWindowIsLost | src/treasury/treasury.service.ts:104-115 | The window is real: a run from the empty treasury in which a handler that chose the account inserts after its rows were counted, and the delete takes the automatic row with it |
| ErpRuns.ArrivalInsideWindowIsLost | src/treasury/treasury.service.ts:104-115 | A run in which no handler is in flight when the rows are counted, and a cost created after the count loses its automatic row to the delete |
| TreasuryLaws.NetByDirection | src/treasury/treasury.service.ts:227-245 | Grouping by account and direction and then signing equals the row-by-row signed sum |
| TreasuryLaws.BalancesConserve | src/treasury/treasury.service.ts:44-61 | All balances together are the opening balances plus the signed sum of the whole ledger |
| TreasuryServices.TreasuryService.AutoPost | src/treasury/treasury.service.ts:293-332 | Run without interruption the handler posts once, with everything its event asks for, to an active default account, else to an active one no other active one is older than, unless the source is posted or no account is active |
| TreasuryServices.TreasuryService.Check | src/treasury/treasury.service.ts:303-308 | The duplicate scan ends the handler exactly when a row with its source exists |
| TreasuryServices.TreasuryService.FindDefault | src/treasury/treasury.service.ts:334-339 | Finds an active default account if there is one |
| TreasuryServices.TreasuryService.FindFirst | src/treasury/treasury.service.ts:340-346 | Finds the oldest active account if there is one |
| TreasuryServices.TreasuryService.Create | src/treasury/treasury.service.ts:316-331 | The insert adds one row with everything the post asks for on the chosen account, or none and a failed post when that account is gone; the handler is over |
| TreasuryServices.TreasuryService.OpenAccount | src/treasury/treasury.service.ts:63-75 | Run without interruption a create adds one account, default exactly when it is the first |
| TreasuryServices.TreasuryService.PatchAccount | src/treasury/treasury.service.ts:77-101 | Run without interruption an update fails exactly on an unknown account; each field given is set and each left out stays; a promoted account ends up the only default, and other accounts keep all but their default flag |
| TreasuryServices.TreasuryService.RemoveAccount | src/treasury/treasury.service.ts:104-115 | A whole delete request, uninterrupted, refuses accounts with rows and leaves the ledger as it was |
| TreasuryServices.TreasuryService.Enter | src/treasury/treasury.service.ts:152-194 | A manual row is added exactly when its account exists, and its truck if it names one; it never carries a source and changes no other row and nothing about which sources are posted |
| TreasuryServices.TreasuryService.RemoveTransaction | src/treasury/treasury.service.ts:196-203 | Succeeds exactly on a stored row, deletes it and no other, and records the post of an automatic row as deleted by hand |
| TreasuryServices.TreasuryService.NetByAccount | src/treasury/treasury.service.ts:227-245 | The map loop yields the signed sum of each account's rows; an account it omits nets to zero |
| TreasuryServices.TreasuryService.ListAccounts | src/treasury/treasury.service.ts:44-61 | Every account is listed with opening balance plus its signed rows |
| TreasuryServices.TreasuryService.CashPosition | src/treasury/treasury.service.ts:207-222 | The cash position is the active part of the account listing, and its total their sum |
| Statements.AggregateByWorker | src/payroll/payroll.service.ts:270-315 | One row per worker on the lines, with the sums of the driver and helper lines, their total and the count of distinct trips, sorted by total then name |
| Statements.StatementConserves | src/payroll/payroll.service.ts:270-315 | A statement accounts for all the lines: its totals add up to the sum of the lines |
| Statements.RunMatchesStatement | src/payroll/payroll.service.ts:86-102 | In every reachable state a run's stored total is the sum of its statement and its stored workerCount the number of rows |
| Statements.FiguresAgree | src/reporting/reporting.aggregate.ts:112-151 | For every worker the driver and helper sums over pay lines equal those over the trips |
| Statements.PreviewMatchesReport | src/payroll/payroll.service.ts:49-70 | For a range in which no trip is covered by a non-void run, the payroll preview of its read and the worker-pay report of its read show the same rows, in the same places up to workers tied on both total and name |
| Statements.ReadsAgreeIff | src/payroll/payroll.service.ts:180-208 | The preview reads the trips the report reads if and only if no trip of the range is covered |
| Reporting.AggregateWorkerPay | src/reporting/reporting.aggregate.ts:112-151 | One row per worker on a trip: driver pay of trips driven, helper pay of trips helped, their total; larger totals first, then names |
| Reporting.PayConserves | src/reporting/reporting.aggregate.ts:112-151 | Worker pay accounts for all driver pay and for the helper pay of all trips with a helper |
| Reporting.AggregateClientBillables | src/reporting/reporting.aggregate.ts:161-197 | One row per client with a trip: its name, the number of its trips and the sum they bill, sorted |
| Reporting.ClientsConserve | src/reporting/reporting.aggregate.ts:161-197 | Client billables account for every trip and everything billed |
| Reporting.SumByTruck | src/reporting/reporting.service.ts:224-232 | Per-truck sums of fuel or cost entries, for exactly the trucks that have entries |
| Reporting.TruckSumsConserve | src/reporting/reporting.service.ts:224-232 | The per-truck sums account for every entry |
| Reporting.AggregateTruckPnl | src/reporting/reporting.aggregate.ts:322-408 | One row per truck with a trip, fuel or cost entry, shown under its trips' code or the fleet code, with profit = revenue − fuel − driver − helper − costs, and totals that are the column sums |
| Reporting.PnlTotalsExact | src/reporting/reporting.aggregate.ts:362-407 | Total profit is total revenue less fuel, pay and costs; revenue and pay are those of all trips, fuel and costs those of all entries |
| Reporting.ReportsAgree | src/reporting/reporting.aggregate.ts:112-197 | On the same trips, P&L revenue is the sum of client billables, P&L driver pay the worker-pay driver total, and P&L helper pay the worker-pay helper total plus helper pay of trips without a helper |
| Reporting.FiguresConserve | src/reporting/reporting.aggregate.ts:161-197 | Grouping by any key loses nothing: per-key sums add up to the column |
| RangeReports.RangeAsAsked | src/reporting/reporting.service.ts:201-218 | A query gets the range that ends at the day asked for, or today, and begins at the day asked for, or 29 days before its end; it is refused as inverted or as longer than 366 days |
| RangeReports.RangeCoversExactly | src/reporting/reporting.service.ts:201-218 | An accepted range has 1 to 366 days, 30 by default, strictly ascending, and a day is one of them if and only if it lies between the bounds the query asked for |
| RangeReports.RangeRefused | src/reporting/reporting.service.ts:207-215 | A query is refused if and only if its from date is after the to date or 366 or more days before it |
| RangeReports.EnumerateDays | src/reporting/reporting.service.ts:253-259 | The day loop lists exactly the days of the range |
| RangeReports.AggregateOperational | src/reporting/reporting.aggregate.ts:246-284 | Each line, per requested day and overall, counts its logs by status, shows how many are recorded, and the share that operated to the nearest ten-thousandth, 0 without logs |
| RangeReports.DaysSumToTotals | src/reporting/reporting.aggregate.ts:246-284 | For rows of the range the lines of its days add up to the totals, status by status and in what is recorded |
| RangeReports.SharesWithinUnit | src/reporting/reporting.aggregate.ts:246-284 | Every operating share of the report is within 0..1 |
| RangeReports.AggregateUtilization | src/reporting/reporting.aggregate.ts:79-99 | Per requested day, the number of distinct trucks with a trip and its ratio to the active trucks |
| RangeReports.PctWithinUnit | src/reporting/reporting.aggregate.ts:72-75 | A reported ratio is within 0..1 if and only if the part exceeds the whole by less than half a rounding unit |
| RangeReports.PctNearest | src/reporting/reporting.aggregate.ts:92-97 | The ratio is the nearest ten-thousandth |
| RangeReports.ShareIsUnique | src/reporting/reporting.aggregate.ts:222-224 | At most one number is the nearest ten-thousandth of a part over a whole |
| RangeReports.Utilization | src/reporting/reporting.service.ts:52-66 | Each day shows the distinct trucks that ran over the trucks now active |
| RangeReports.UtilizationWithinUnit | src/reporting/reporting.aggregate.ts:72-75 | A day is within the documented 0..1 if and only if no truck is active or the trucks that ran exceed the active ones by less than half a rounding unit, and always when every truck that ran is active |
| RangeReports.UtilizationExceedsOne | src/reporting/reporting.aggregate.ts:72-75 | With one active truck and an inactive one that ran, the day shows 2 |
| RangeReports.AggregateTrips | src/reporting/reporting.aggregate.ts:43-66 | Trip counts per day, dates ascending, and per truck, codes ascending |
| RangeReports.TripCountsConserve | src/reporting/reporting.aggregate.ts:43-66 | Both lists count every trip of the report exactly once |
| Stripper.RankedIff | src/rbac/financial-fields.interceptor.ts:57-80 | What the traversal of a value comes to can be ranked for termination if and only if every cycle among it passes through a plain object, whatever lies under financial keys or out of reach |
| Stripper.StripSpec | src/rbac/financial-fields.interceptor.ts:57-80 | The traversal terminates and only adds to the visited set |
| Stripper.RankIrrelevant | src/rbac/financial-fields.interceptor.ts:57-80 | What the traversal returns does not depend on the ranks |
| Stripper.Walker.Strip | src/rbac/financial-fields.interceptor.ts:57-80 | The recursive worker with its shared visited set computes the traversal |
| Stripper.StripFinancialFields | src/rbac/financial-fields.interceptor.ts:53-55 | The interceptor terminates with the stripped response on every finite graph in which each cycle the traversal comes to passes through a plain object |
| StripperLaws.SurvivesIff | src/rbac/financial-fields.interceptor.ts:63-67 | On every such graph, cycles included, a financial key can be reached in the result if and only if two different walks lead to an object of the input that holds one |
| StripperLaws.ExposesThroughMetAgain | src/rbac/financial-fields.interceptor.ts:63-67 | A financial key can be reached in the result if and only if one can be reached from an object the traversal met again; copies hold none |
| StripperLaws.StripKeepsTheRest | src/rbac/financial-fields.interceptor.ts:69-76 | Every walk that takes no financial key leads to the same value in the input and in the result, with the same other keys in order, at any depth and through any cycle |
| StripperLaws.CopiedOnce | src/rbac/financial-fields.interceptor.ts:63-76 | Each plain object is copied at one place, when it is first visited |
| StripperLaws.StripFactors | src/rbac/financial-fields.interceptor.ts:57-80 | On every graph and visited set the traversal is: unfold up to references back, strip the tree purely, turn references into the original objects |
| StripperLaws.StripIsTreeStrip | src/rbac/financial-fields.interceptor.ts:53-80 | When no plain object is reached by two walks the response unfolds to a tree and the result is its pure strip, with no financial key at any depth |
| StripperLaws.SharedObjectIsKept | src/rbac/financial-fields.interceptor.ts:63-67 | The result on an object with a financial key under two keys of another: it keeps that key the second time |
| StripperLaws.CyclicObjectIsKept | src/rbac/financial-fields.interceptor.ts:63-67 | The result on an object with a financial key that refers to itself: it comes back whole under its own copy |
| StripperLaws.StripRemovesMoney | src/rbac/financial-fields.interceptor.ts:69-76 | No financial key survives a tree strip at any depth |
| StripperLaws.FinancialKeys | src/rbac/financial-fields.ts:13-21 | The financial keys are billAmount, driverPay, helperPay, clientPrice, purchasePrice, fuelCost and totalPay, and no others |
| StripperLaws.StripKeepsOtherKeys | src/rbac/financial-fields.interceptor.ts:69-76 | Every other key is kept, in order |
| StripperLaws.StripFixesClean | src/rbac/financial-fields.interceptor.ts:57-80 | A tree is left alone if and only if it holds no financial key |
| StripperLaws.StripIdempotent | src/rbac/financial-fields.interceptor.ts:53-55 | Stripping twice is stripping once |
| Usernames.FirstFreeUsername | src/users/username.util.ts:35-48 | The search ends, returns the first free candidate, and its suffix is at most the number of taken names plus one |
| Usernames.PrefixFilterExact | src/users/users.service.ts:110-118 | Searching only the names that start with the base gives the same answer as searching all |
| Usernames.UsersService.GenerateUsername | src/users/users.service.ts:110-118 | The name picked is the first candidate free in the whole table |
| Usernames.UsersService.Create | src/users/users.service.ts:22-55 | Every attempt before the last lost its first free name to a concurrent insert; the last one inserts its name, or reports a taken email or, on the fifth attempt, the conflict; usernames stay unique |
| RefreshTokens.OneTokenPasses | src/auth/auth.service.ts:54-78 | In every reachable state at most one token of a user passes the check, and it is the last one stored |
| RefreshTokens.DeadForever | src/auth/auth.service.ts:54-82 | A token that was stored and then overwritten, deleted or expired is never accepted again, in any continuation |
| RefreshTokens.PutRotates | src/auth/auth.service.ts:135-144 | Storing a token kills the user's previous one and no one else's |
| RefreshTokens.OneTokenTwoRefreshes | src/auth/auth.service.ts:54-78 | One token may pass the check twice before its successor is stored; both refreshes then succeed and only the token stored last is accepted |
| RefreshTokens.AcceptedAfterLogoutIff | src/auth/auth.service.ts:80-82 | After a logout a token of the user is accepted if and only if it is the last one stored for the user, was stored after the logout, and has been neither removed nor outlived |
| RefreshTokens.AcceptedWithoutLoginIff | src/auth/auth.service.ts:64-82 | Without a new login of the user, some continuation after a logout has a token of the user accepted if and only if a login or refresh was in flight at the logout, past its check and not yet stored |
| RefreshTokens.RefreshOutlivesLogout | src/auth/auth.service.ts:64-82 | A run in which a refresh that passed its check before the logout stores its token after it, and that token is accepted |
| RefreshTokens.RunKeeps | src/auth/auth.service.ts:120-152 | The key of a user holds the last token stored for that user, and no token is stored twice, at every position of every run of checks, mints, stores, logouts and clock ticks |
| RefreshTokens.WholeRequestsAreSteps | src/auth/auth.service.ts:48-82 | A login, and a refresh with a token that passes, begin alike, a refresh with any other token begins nothing, a request may still be refused, and a logout ends acceptance for its user alone |
| RefreshTokens.WholeIssueIsSteps | src/auth/auth.service.ts:120-152 | Minting and storing a token without interruption leaves the user the new token alone and ends the request |
| RefreshTokens.TokensExpire | src/auth/auth.service.ts:135-144 | As time passes a token goes on being accepted exactly until its time to live is over |
| RefreshTokens.AuthService.Login | src/auth/auth.service.ts:48-52 | After a login exactly the new token of the user passes; a failed one changes nothing |
| RefreshTokens.AuthService.Refresh | src/auth/auth.service.ts:54-78 | A refresh succeeds exactly on the accepted token of an active user, and replaces it |
| RefreshTokens.AuthService.Logout | src/auth/auth.service.ts:80-82 | After a logout no token of the user passes and others are unaffected |
| Odometer.ComputeLogWarnings | src/operations/log-warnings.ts:21-58 | Exactly the raised warnings, each once, in the fixed order |
| Odometer.PreviousIsNeighbour | src/operations/operations.service.ts:378-390 | The previous-log lookup finds the neighbour in calendar order among logs with an end reading |
| Odometer.SilentIffReadingsRise | src/operations/log-warnings.ts:31-51 | If every log with an end reading has a start reading, no odometer warning is raised on them if and only if start and end readings in date order never fall |
| Odometer.SilentBoundsDistance | src/operations/log-warnings.ts:31-51 | With no warning, the daily distances add up to at least 0 and at most last end minus first start |
| Odometer.UnpairedLogHidesFall | src/operations/log-warnings.ts:31-51 | A log closed without a start reading hides a fall of the odometer |
| Odometer.OperationsService.CreateLog | src/operations/operations.service.ts:52-87 | Get or create by day and truck: a second create returns the first log unchanged, with the warnings of the stored readings; an unknown truck is refused |

## Left out

- DocumentServices.DocumentService.Create: runs its reads and its insert without interruption; the interleavings are proved for the step functions in `DocumentLaws` and `ErpTheorems`.
- TreasuryServices.TreasuryService.AutoPost: states the uninterrupted handler; the interleavings are proved for its steps in `Treasury` and `ErpTheorems`.
- Usernames.UsersService.Create: when username and email are both taken the database decides which index reports first; the model reports the username. The raw conflict rethrown on the fifth attempt and the generic message after the loop are one error here.
- Statements.PreviewMatchesReport: assumes each worker id goes by one name within the read, as both reads join the name from the worker table.
- Reporting.AggregateWorkerPay: `localeCompare` is an abstract total preorder on names, here and in every sorted report.
- RefreshTokens.AuthService.Refresh: signatures, secrets and token expiry inside the JWT are not modelled; a token is the pair of user and jti.
- Odometer.OperationsService.CreateLog: status, notes, fuel cost and the create race behind the unique index are not modelled; the insert and its fallback read are one step.
- TreasuryServices.TreasuryService.PatchAccount: states the uninterrupted request; overlapping ones are in `AccountDefaults` and `ErpTheorems`.
- DocumentLaws.PrefixTellsYear: text is compared character by character; database collations are not modelled.
- Decimal.js precision, `toFixed` printing and the float division behind ratios: cents are integers, and a ratio is the nearest ten-thousandth, halves rounding up.
- `parseInt` on text with leading blanks or a sign, which stored numbers never have.
- JavaScript dates and time zones: a day is an integer, and issue dates are UTC midnights.
- Detail and list queries, pagination, notes beyond replacement, the response DTOs, controllers, validation, throttling and configuration.
- Password hashing, the role table and the ability rules.
- Role changes of users, and the base name taken from a full name.
- Trip creation, editing and deletion as operations of their own: the model lets trips, clients and trucks be rewritten in any way at any time.
- The order of account listings by name, and labels joined into transaction listings.
- Fleet, workforce, clients, pricing, the audit log, seeding and history import, which would add only easy members.
- Non-termination of the stripper on an array that contains itself without a plain object in between: the model requires that every cycle the traversal comes to passes through a plain object.
