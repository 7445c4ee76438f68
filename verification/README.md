# Verification of the accounting core

A Dafny model of the hardest logic of the accounting system, with proofs. `dafny verify dfyconfig.toml` checks all of it.

Tables are fields of classes (sequences and maps); a database transaction is one method that either commits or leaves
the state as it was. Each class method works through its tables the way the service does, with the same loops and early
returns, and is proved to do what a function of the old state says (`Post`, `Allocate`, `Apply`, `Solve`, `Persist`, ...).
The properties are lemmas about those functions and about whole runs of them.

Amounts: an exact amount, as the decimal library carries it, is a `real` counted in units of 0.0001 AZN; a stored amount is
an `int` in the same units, because the amount columns are numeric(19,4). Storing rounds half up, so a journal can be
balanced as sent and unbalanced as stored; the proofs keep the two apart.

## Modules

- `money`, `wrappers`: rounding and optional values.
- `ledger`, `ledger_laws`, `ledger_runs`: posting, the IFRS shadow, trial balances and closed periods over runs.
- `netting`, `netting_laws`, `netting_runs`: set-off of a receivable against a payable, alone and interleaved.
- `depreciation`, `depreciation_laws`: monthly straight-line depreciation and its reconciliation with account 112.
- `fx_revaluation`: the month-end journal of exchange differences.
- `organization`: all of these acting on one ledger, over runs of arbitrary operations.
- `hierarchy`, `chart_seed`, `ifrs_mirror`, `ancestry`: tree builders of the chart of accounts.
- `audit`: the hash chain of the audit log.
- `payments`, `payments_runs`, `payments_subscriptions`: payment orders under repeated, reordered and overlapping
  confirmations, and what they do to the subscription.
- `rate_status`: preliminary and final rates of the central bank.
- `words`, `iban`, `json_diff`: amounts in words, the IBAN checksum, the audit diff.

## What the proofs found

Each of these is a lemma with the input on which the code falls short, next to a lemma with the exact condition under
which it does not.

- `validateBalance` compares exact amounts. An amount with more than four decimals is accepted, and the journal can be stored
  off balance (`AcceptedOffBalance`). The books stay in balance exactly as long as every accepted journal is stored in
  balance (`EveryTransactionBalances`, `OrganizationStaysInBalance`).
- A netting checked against IFRS is posted to NAS and can push the national payable below zero
  (`NettingCheckedAgainstIfrsOverdraws`), exactly when the payable is less than the stored amount (`NettingIsCoveredIff`).
- Netting checks are read outside the transaction. Invoices are never overpaid, but two requests checked before either
  commits overdraw the payable (`InterleavedNettingsOverdraw`); `PayableOverInterleavings` gives the payable after any run
  and says when it is overdrawn.
- The month-end revaluation reads the settings of all organizations up front and writes each one back whole. A month that is
  closed in between is open again (`RevaluationReopensMonth`); closed months survive exactly when none was closed between
  the two (`ClosedMonthsSurviveIff`).
- Month rows are deleted with their asset (`onDelete: Cascade` in the schema), so removing an asset leaves credits of 112
  behind, exactly when something was booked on it (`RemovalBreaksReconciliation`).
- Two audit rows of the same millisecond can be flagged although nothing was changed (`SameMillisecond`), and so is every
  row whose JSON columns come back with their keys in another order, as from a `jsonb` column (`ReorderedKeysAreFlagged`).
  `CleanIffEveryWriteInOrder` is the exact condition. Rows removed from the end of the log are not noticed
  (`RemovalFlagsTheNextRow`).
- Two payment orders of one organization that are finalised at the same time prolong the subscription once, or grant one
  module of two (`MonthIsLost`, `ModuleIsLost`). `CommitProlongsTheStoredEndIff` and `CommitKeepsModulesIff` are the exact
  conditions on a commit.
- The IBAN check does not see 1B, 2M or 3X swapped with their neighbour, and no other swap goes unseen (`SwapIsNoticed`); it
  takes the check numbers 00, 01 and 99 beside those from 02 to 98 (`CheckNumberIsUnique`).
- If documents of the central bank for one date have different codes, rows of a date end up with different statuses
  (`MixedStatus`), exactly when a row that is not overwritten had another status (`StatusAfter`).
- Russian kopeks are printed with the masculine numeral, "один копейка", exactly if they end in one or two but not in 11
  or 12 (`AmountRoundTrip` with `KopeksAgree`).
- An amount in words reads back as the amount exactly below 10^12 manats, in both languages (`AmountRoundTrip`); at 10^12 two
  amounts have the same text (`BoundIsTight`).

## Model

| member | source | states |
|---|---|---|
| Money.HalfUpIsNearest | apps/api/src/fixed-assets/decimal-round.ts:6-10 | rounding half up is the only choice of a nearest integer that breaks ties away from zero |
| Money.RoundMoney2IsNearest | apps/api/src/fixed-assets/decimal-round.ts:8-10 | `roundMoney2` gives a multiple of 0.01 AZN at most 0.005 away, ties away from zero |
| Ledger.AccountingService.ValidateBalance | apps/api/src/accounting/accounting.service.ts:46-68 | no error exactly when there are lines, none has both sides, and debits equal credits and are positive |
| Ledger.AccountingService.RuleBySource | apps/api/src/accounting/ifrs-auto-mapping.service.ts:38-44 | a code is mapped to a target exactly when the rule that decides about it has that target: the first one that is active, is for the code and has an IFRS account |
| Ledger.AccountingService.Stage | apps/api/src/accounting/ifrs-auto-mapping.service.ts:46-53 | each line with its amounts on the target of the rule that decides about it, or nothing as soon as no rule decides |
| Ledger.AccountingService.MirrorFromNas | apps/api/src/accounting/ifrs-auto-mapping.service.ts:8-75 | appends one IFRS entry per NAS line, on the target of the rule that decides about it, or none |
| Ledger.MapCodeFollowsTheRules | apps/api/src/accounting/ifrs-auto-mapping.service.ts:38-48 | the mapping of a code is that of the first active rule for it whose IFRS account exists |
| Ledger.AccountingService.PostJournal | apps/api/src/accounting/accounting.service.ts:73-201 | posts as the function `Post` does, with the same error, or leaves the tables alone |
| LedgerLaws.SkewBound | apps/api/src/accounting/accounting.service.ts:46-68 | a stored journal is off balance by at most half a unit per amount finer than 0.0001 AZN |
| LedgerLaws.AcceptedOffBalance | apps/api/src/accounting/accounting.service.ts:59-67 | a journal that is accepted and moves the trial balance |
| LedgerLaws.MirrorIsAllOrNothing | apps/api/src/accounting/ifrs-auto-mapping.service.ts:46-74 | the balance guard before writing never fires: an accepted journal is mirrored line by line or not at all |
| LedgerLaws.PostKeepsBalance | apps/api/src/accounting/accounting.service.ts:159-198 | a posting keeps every transaction balanced in each ledger exactly when its journal is stored in balance |
| LedgerLaws.TurnoverOfPost | apps/api/src/accounting/accounting.service.ts:146-198 | any turnover changes by the entries of the new transaction only |
| LedgerLaws.PostSucceedsIff | apps/api/src/accounting/accounting.service.ts:101-144 | which journals are accepted, IFRS ones by the IFRS chart, and what a rejected one is rejected for |
| LedgerLaws.PostWrites | apps/api/src/accounting/accounting.service.ts:146-198 | the rows an accepted journal adds: transaction, one entry per line, and its shadow on the targets of the rules that decide |
| LedgerLaws.LineSumsAdd | apps/api/src/accounting/accounting.service.ts:50-62 | debits, credits and stored imbalance of lines add up, however the lines are put together |
| LedgerRuns.TrialBalanceOverRuns | apps/api/src/accounting/accounting.service.ts:73-201 | over every run the trial balance of a ledger drifts by exactly the rounding of the accepted journals |
| LedgerRuns.EveryTransactionBalances | apps/api/src/accounting/accounting.service.ts:46-68 | after any run each transaction has equal debits and credits in NAS and in IFRS exactly when storing unbalanced none of the accepted journals |
| LedgerRuns.ClosedPeriodsAreFrozen | apps/api/src/accounting/accounting.service.ts:103-117 | once a period is closed or locked no run changes the entries dated in it, mirrored ones included |
| LedgerRuns.ShadowOverRuns | apps/api/src/accounting/ifrs-auto-mapping.service.ts:38-74 | with fixed rules each NAS transaction is mirrored completely, line by line on the targets of the rules that decide, or not at all |
| LedgerRuns.NetIsSumOfNets | apps/api/src/accounting/ifrs-auto-mapping.service.ts:63-74 | the net over a set of accounts is the sum of the nets of its accounts |
| LedgerRuns.IfrsIsThePushforwardOfNas | apps/api/src/accounting/ifrs-auto-mapping.service.ts:38-74 | the net of an IFRS account over mirrored transactions is the sum of the nets of the NAS accounts that a rule to it decides about |
| Netting.NettingService.ReceivableForCounterparty | apps/api/src/accounting/netting.service.ts:41-65 | the sum of the positive remainders of the open invoices |
| Netting.NettingService.Payable531ForCounterparty | apps/api/src/accounting/netting.service.ts:67-95 | the positive part of credits minus debits of 531 in transactions with the counterparty |
| Netting.NettingService.PayRow | apps/api/src/accounting/netting.service.ts:149-186 | one pass of the loop: payment row, status, flag and what is left |
| Netting.NettingService.AllocateNettingToInvoicePayments | apps/api/src/accounting/netting.service.ts:127-193 | the loop computes `Allocate` |
| Netting.NettingService.CreateNetting | apps/api/src/accounting/netting.service.ts:226-389 | commits the journal and the allocation together, or throws the same error and changes nothing; CreateMoves and NettingFailsFor say what that is |
| NettingLaws.PayInvoiceLaws | apps/api/src/accounting/netting.service.ts:149-186 | an invoice gets as much as it owes and the rest carries over exactly |
| NettingLaws.AllocationClosedForm | apps/api/src/accounting/netting.service.ts:149-186 | each invoice gets the part of the amount that the earlier ones leave over, no more than it owes |
| NettingLaws.ReceivableAfter | apps/api/src/accounting/netting.service.ts:127-193 | the receivable falls by the amount down to zero, and exactly the excess is left |
| NettingLaws.ReceivableOfOthers | apps/api/src/accounting/netting.service.ts:132-147 | what other counterparties owe does not change |
| NettingLaws.AllocationPaysOpenInvoices | apps/api/src/accounting/netting.service.ts:138-157 | only recognised invoices of the counterparty that are neither cancelled nor paid are paid on, all of them in full if the amount covers the receivable |
| NettingLaws.AllocationAddsOneRow | apps/api/src/accounting/netting.service.ts:157-167 | an invoice that is paid on gets one payment row, linked to the transaction of the netting |
| NettingLaws.AllocationNeverOverpays | apps/api/src/accounting/netting.service.ts:149-186 | no invoice is paid beyond its total |
| NettingLaws.DerivedStateFits | apps/api/src/accounting/netting.service.ts:97-121 | status and flag derived from total, paid sum and current status, case by case |
| NettingLaws.DeriveTwice | apps/api/src/accounting/netting.service.ts:97-121 | recomputing the status after a further payment forgets the one in between |
| NettingLaws.StatesFitAfterAllocation | apps/api/src/accounting/netting.service.ts:97-121 | status and flag of every invoice paid on tell how far it is paid; locked and cancelled invoices keep their status |
| NettingLaws.AllocationIsSplitInvariant | apps/api/src/accounting/netting.service.ts:149-186 | allocating a then b leaves every invoice as allocating a + b at once |
| NettingLaws.SplitPaysTheSameIff | apps/api/src/accounting/netting.service.ts:149-186 | for amounts of any precision, a split pays every invoice the same exactly when rounding the parts makes no difference |
| NettingLaws.SplitOfFineAmounts | apps/api/src/accounting/netting.service.ts:157-167 | with a first amount finer than 0.0001 AZN the split shows |
| NettingRuns.NettingJournalBalances | apps/api/src/accounting/netting.service.ts:329-365 | the journal passes `validateBalance` and is stored in balance, with and without VAT lines |
| NettingRuns.NetOfNetting | apps/api/src/accounting/netting.service.ts:292-365 | 531 is debited and 211 credited by the stored amount, 241 and 541 by the tax of 18 in 118 of it, nothing else moves in NAS |
| NettingRuns.VatPortionIsTheTax | apps/api/src/accounting/netting.service.ts:298-304 | the tax posted is the only one that is 18 percent of the rest of the amount up to rounding |
| NettingRuns.CreateMoves | apps/api/src/accounting/netting.service.ts:226-365 | what `createNetting` moves on each national account; VAT exactly when both sides pay it and 241 and 541 are in the chart that was checked |
| NettingRuns.NettingFailsFor | apps/api/src/accounting/netting.service.ts:237-290 | what a rejected netting is rejected for, in the order of the checks |
| NettingRuns.CommitEffect | apps/api/src/accounting/netting.service.ts:328-374 | what a commit does to receivable and payable, whatever was checked before |
| NettingRuns.CommitSucceedsIff | apps/api/src/accounting/netting.service.ts:188-192 | a commit goes through exactly when its journal is accepted and the open invoices take the amount but for one unit |
| NettingRuns.NettingIsExact | apps/api/src/accounting/netting.service.ts:259-273 | receivable and national payable fall by exactly the stored amount |
| NettingRuns.NettingSucceedsWhen | apps/api/src/accounting/netting.service.ts:226-328 | the exception for an unallocated rest is unreachable, and success is characterised exactly |
| NettingRuns.NettingIsCoveredIff | apps/api/src/accounting/netting.service.ts:259-374 | the national payable is not overdrawn by a commit exactly when it covers the stored amount, whatever ledger was checked |
| NettingRuns.NettingCheckedAgainstIfrsOverdraws | apps/api/src/accounting/netting.service.ts:259-273 | with nothing owed in NAS a netting checked against IFRS overdraws the national payable by its amount |
| NettingRuns.IfrsOnlyPayableExists | apps/api/src/accounting/netting.service.ts:67-95 | a state in which that happens |
| NettingRuns.NettingConserves | apps/api/src/accounting/netting.service.ts:226-389 | over any requests, what was netted is what both balances lost, at most the smaller of the two |
| NettingRuns.GapOfCommit | apps/api/src/accounting/netting.service.ts:188-192 | one commit opens a gap between 211 and its payments of at most one unit |
| NettingRuns.GapOverInterleavings | apps/api/src/accounting/netting.service.ts:259-374 | under any interleaving of checks and commits the gap after n commits is between 0 and n units |
| NettingRuns.PayableOverInterleavings | apps/api/src/accounting/netting.service.ts:259-374 | after any interleaving the payable is what it was, less the committed nettings, plus what other journals put on 531, with the condition for not being overdrawn |
| NettingRuns.InterleavedNettingsOverdraw | apps/api/src/accounting/netting.service.ts:259-328 | two requests checked before either commits overdraw the payable |
| NettingRuns.OverdrawableStateExists | apps/api/src/accounting/netting.service.ts:41-95 | a state in which that happens |
| Depreciation.DepreciationService.CollectRows | apps/api/src/fixed-assets/depreciation.service.ts:56-87 | the rows to book, asset by asset |
| Depreciation.DepreciationService.BuildJournal | apps/api/src/fixed-assets/depreciation.service.ts:93-107 | one debit of 713 per row against one credit of 112 |
| Depreciation.DepreciationService.ApplyForClosedMonth | apps/api/src/fixed-assets/depreciation.service.ts:36-144 | posts and books as `Apply` does, or throws and changes nothing |
| DepreciationLaws.ChargeStep | apps/api/src/fixed-assets/depreciation.service.ts:66-85 | a new eligible month brings min(done, full) to min(done + monthly, full) |
| DepreciationLaws.OnlyTheseAreCharged | apps/api/src/fixed-assets/depreciation.service.ts:44-85 | only active straight-line assets bought by the end of the month, without a row for it and with something left, are charged, by what is left plus half a cent at most |
| DepreciationLaws.DepreciationJournalBalances | apps/api/src/fixed-assets/depreciation.service.ts:93-107 | the journal passes `validateBalance` and is stored in balance |
| DepreciationLaws.NetOfDepreciation | apps/api/src/fixed-assets/depreciation.service.ts:103-107 | 112 is credited by the total of the rows |
| DepreciationLaws.ApplySucceedsIff | apps/api/src/fixed-assets/depreciation.service.ts:89-116 | a month goes through exactly when nothing is charged or the month is open and 713 and 112 exist |
| DepreciationLaws.ApplyWrites | apps/api/src/fixed-assets/depreciation.service.ts:93-137 | 713 is debited and 112 credited by what the assets come to carry more, nothing else moves in NAS, and each new month row carries the charge of its asset |
| DepreciationLaws.DepreciationReconciles | apps/api/src/fixed-assets/depreciation.service.ts:109-137 | over every run each asset carries the sum of its month rows, and 112 the sum over assets plus what removed assets carried |
| DepreciationLaws.RemovalBreaksReconciliation | packages/database/prisma/schema.prisma:1205-1219 | removing any asset keeps the reconciliation exactly when nothing was booked on it |
| DepreciationLaws.DepreciationClosedForm | apps/api/src/fixed-assets/depreciation.service.ts:56-87 | after any operations that do not edit or remove the asset, with months in any order, repeated and rejected, booked = min(k * monthly, rounded total) for k distinct eligible months |
| DepreciationLaws.DepreciationBounds | apps/api/src/fixed-assets/depreciation.service.ts:56-87 | never more than half a cent too much, and at most half a cent per month missing after the useful life |
| FxRevaluation.FxRevaluationService.RevalueAccount | apps/api/src/fx/fx-revaluation.service.ts:135-181 | the lines of one account, a gain debited to it against 662 and a loss credited to it against 562, and its new rate |
| FxRevaluation.FxRevaluationService.ReadSettings | apps/api/src/fx/fx-revaluation.service.ts:69-71 | the settings as they are when the run for all organizations starts |
| FxRevaluation.FxRevaluationService.RunForOrganization | apps/api/src/fx/fx-revaluation.service.ts:84-194 | with settings read earlier, posts and stores state as `Revalue` does, or throws and changes nothing |
| FxRevaluation.FxRevaluationService.PersistFxState | apps/api/src/fx/fx-revaluation.service.ts:196-215 | writes the settings that were read back whole, with the new month and rates |
| FxRevaluation.RevaluationJournalBalances | apps/api/src/fx/fx-revaluation.service.ts:132-181 | the journal passes `validateBalance` and is stored in balance although its amounts are products |
| FxRevaluation.RevaluationIsOncePerMonth | apps/api/src/fx/fx-revaluation.service.ts:84-100 | a second run changes nothing if it reads the settings after the first; with settings read before, it moves the accounts again |
| FxRevaluation.RatesAreOfTheClosing | apps/api/src/fx/fx-revaluation.service.ts:129-151 | the rates kept are the new ones of revalued currencies and the old ones of all others |
| FxRevaluation.RevaluationMovesAccounts | apps/api/src/fx/fx-revaluation.service.ts:139-181 | any account moves by the differences stored on it, counterparts included |
| FxRevaluation.LinesAreThePair | apps/api/src/fx/fx-revaluation.service.ts:135-181 | the two lines are over the balance times the change of the rate, on the side of its sign, if both exceed 0.01 |
| FxRevaluation.RevaluationOfAccount | apps/api/src/fx/fx-revaluation.service.ts:135-181 | an account moves by its stored balance times the change of its rate, and not at the first closing of its currency |
| FxRevaluation.RevaluationCounterparts | apps/api/src/fx/fx-revaluation.service.ts:154-181 | 662 is credited by what the accounts rose, 562 debited by what they fell, and no other account moves |
| FxRevaluation.RevaluationWritesBack | apps/api/src/fx/fx-revaluation.service.ts:184-215 | the settings after a run are those it was given, with month and rates; a month they show as posted changes nothing |
| FxRevaluation.RevaluationSucceedsIff | apps/api/src/fx/fx-revaluation.service.ts:99-194 | a run goes through exactly when nothing moves or the last day of the month is open and the accounts used exist |
| Organization.RunIsEvents | apps/api/src/accounting/accounting.service.ts:73-223 | the ledger after any operations is the ledger after their events |
| Organization.RevaluationInOneGo | apps/api/src/fx/fx-revaluation.service.ts:84-215 | the steps of a revaluation that nothing comes between do what `Revalue` says |
| Organization.OrganizationStaysInBalance | apps/api/src/accounting/accounting.service.ts:46-68 | after any run of all producers each transaction balances in NAS and IFRS exactly when every accepted manual journal is stored in balance |
| Organization.OnGridIsKept | apps/api/src/accounting/accounting.service.ts:46-68 | manual journals without amounts finer than 0.0001 AZN are |
| Organization.OrganizationFreezesPeriods | apps/api/src/reporting/reporting.service.ts:1300-1361 | no operation changes what is dated in a closed or locked period, as long as no settings from before it are written back |
| Organization.ClosedMonthsSurviveIff | apps/api/src/fx/fx-revaluation.service.ts:196-215 | a revaluation leaves closed months and lock as it read them: closed months survive exactly when none was closed between its read and its write |
| Organization.RevaluationReopensMonth | apps/api/src/fx/fx-revaluation.service.ts:64-82 | a run on which a month that was closed accepts journals again |
| Organization.OrganizationShadowsNas | apps/api/src/accounting/ifrs-auto-mapping.service.ts:8-75 | IFRS nets are the nets of the mapped NAS accounts after any operations |
| Hierarchy.SolveLaws | packages/database/prisma/chart-seed.ts:117-137 | the passes lose and duplicate nothing, place parents first, and leave only rows whose parent is unresolved |
| Hierarchy.SolveDecidesGroundedness | packages/database/prisma/chart-seed.ts:117-137 | placed rows are exactly those whose parent chain reaches a root or a resolved key, stuck rows the rest |
| Hierarchy.SolveSucceedsIffGrounded | packages/database/prisma/chart-seed.ts:131-135 | nothing is stuck exactly when every chain is grounded |
| ChartSeed.ChartSeeder.UpsertOne | packages/database/prisma/chart-seed.ts:75-111 | creates or updates the account of a code, keeping its id |
| ChartSeed.ChartSeeder.OnePass | packages/database/prisma/chart-seed.ts:121-136 | one pass over the remaining rows is one `Pass` |
| ChartSeed.ChartSeeder.SeedChart | packages/database/prisma/chart-seed.ts:57-138 | the whole seeding; the guard counter never ends the loop |
| ChartSeed.UnresolvedRows | packages/database/prisma/chart-seed.ts:131-135 | a row is reported exactly when its chain does not reach a root inside the list |
| ChartSeed.SeedingSucceedsIffGrounded | packages/database/prisma/chart-seed.ts:364-438 | seeding succeeds exactly when no parent is missing and there is no cycle |
| ChartSeed.SeededTreeIsTheTemplate | packages/database/prisma/chart-seed.ts:57-138 | on success the accounts of the template codes form the template's tree whatever was there before; others are untouched |
| ChartSeed.SeedingKeepsIdsDistinct | packages/database/prisma/chart-seed.ts:80-107 | ids stay distinct, so a parent id names one code |
| ChartSeed.SeedingLinks | packages/database/prisma/chart-seed.ts:75-111 | every row that reaches a root is placed below its parent with the links of the seeding, and keeps its old links where the seeding has none, whether or not other rows are stuck |
| IfrsMirror.AccountsService.MirrorNasToIfrs | apps/api/src/accounts/accounts.service.ts:283-346 | creates the scheduled twins and counts them; the guard counter never ends the loop |
| IfrsMirror.MirroringSucceedsIffGrounded | apps/api/src/accounts/accounts.service.ts:337-341 | it throws exactly when an account without a twin has no chain to a root or to an existing twin |
| IfrsMirror.MirroringSucceedsIff | apps/api/src/accounts/accounts.service.ts:295-341 | in terms of the tables: above each account without a twin there is a chain of such accounts to a root or to one below an account with a twin |
| IfrsMirror.MirrorLaws | apps/api/src/accounts/accounts.service.ts:283-346 | every account gets a twin below the twin of its parent, existing ones are untouched, a second call creates none |
| IfrsMirror.MirrorKeepsIdsDistinct | apps/api/src/accounts/accounts.service.ts:320-333 | twins get fresh ids, so a parent id names one account |
| Ancestry.Collector.AddWithAncestors | packages/database/prisma/nas-chart-commercial-data.ts:244-251 | adds the line of a code as far as it is not there yet, ancestors first |
| Ancestry.Collector.GetNasSmallBusinessAccounts | packages/database/prisma/nas-chart-commercial-data.ts:238-258 | the result is the closure of the wanted codes |
| Ancestry.LineIsUnique | packages/database/prisma/nas-chart-commercial-data.ts:244-251 | a code has at most one line of parents that ends |
| Ancestry.ClosureIsAncestorsOfWanted | packages/database/prisma/nas-chart-commercial-data.ts:238-258 | it holds exactly the wanted codes of the chart and their ancestors, each once, parents first |
| Ancestry.TemplateImporter.CollectChain | apps/api/src/accounts/accounts.service.ts:189-204 | the parents of a template, root first, or an error exactly when one is missing |
| Ancestry.TemplateImporter.ImportNasAccountFromTemplate | apps/api/src/accounts/accounts.service.ts:166-255 | succeeds exactly for a live template that is not imported and whose parents exist; otherwise nothing changes |
| Ancestry.ImportLaws | apps/api/src/accounts/accounts.service.ts:206-255 | the account and all its ancestors are there, new ones below the account of their parent, old ones untouched |
| AuditChain.AuditService.PersistAfterMutation | apps/api/src/audit/audit.service.ts:368-420 | reads the newest hash, chains the new row to it and stores it in the order of time and id |
| AuditChain.AuditService.VerifyOrganizationChain | apps/api/src/audit/audit.service.ts:495-555 | a row with an id of its own is reported exactly when it does not pass |
| AuditChain.FlaggedIff | apps/api/src/audit/audit.service.ts:519-549 | a row passes when it has a hash, and it is the older form or the one chained to the nearest row before it that has one; all others are reported |
| AuditChain.InsertKeepsClean | apps/api/src/audit/audit.service.ts:383-419 | the exact condition under which a row put anywhere into a clean log leaves it clean |
| AuditChain.CleanIffEveryWriteInOrder | apps/api/src/audit/audit.service.ts:368-420 | over any interleaving of reads and writes the log is clean exactly when every write was in order |
| AuditChain.RunIsSorted | apps/api/src/audit/audit.service.ts:383-389 | the log stays in the order of time and id, so the newest row is the last one |
| AuditChain.SerialLogIsClean | apps/api/src/audit/audit.service.ts:368-420 | writes one after the other with growing times give a clean log exactly when their content comes back as hashed |
| AuditChain.ReorderedKeysAreFlagged | apps/api/src/audit/audit.service.ts:363-366 | a column `changes` that comes back with its keys in the order of jsonb flags its row |
| AuditChain.SameMillisecond | apps/api/src/audit/audit.service.ts:383-389 | two writes of one millisecond that flag both rows |
| AuditChain.HashesAreDistinct | apps/api/src/audit/audit-hash.ts:18-50 | no two rows of a clean chained log have the same hash |
| AuditChain.LastHashFixesTheLog | apps/api/src/audit/audit-hash.ts:18-50 | two clean chained logs that end in the same hash are identical row by row |
| AuditChain.ChangeIsFlagged | apps/api/src/audit/audit.service.ts:521-549 | a changed payload flags exactly the changed row |
| AuditChain.RemovalFlagsTheNextRow | apps/api/src/audit/audit.service.ts:519-549 | rows taken out flag exactly the row after the gap; rows off the end are not noticed |
| Payments.PaymentProviderService.RecordPaidOrderInvoice | apps/api/src/billing/billing-platform.service.ts:72-135 | one invoice for a paid order that has none and whose owner is known, else nothing |
| Payments.PaymentProviderService.LogPlatformBillingPaymentApplied | apps/api/src/audit/audit.service.ts:584-609 | one audit row per order |
| Payments.PaymentProviderService.ExtendSubscriptionByMonths | apps/api/src/billing/billing.service.ts:16-44 | an end that is yet to come is prolonged, otherwise the months count from now; false without a subscription |
| Payments.PaymentProviderService.FinalizePaidOrder | apps/api/src/billing/payment-provider.service.ts:286-374 | the transaction, with rollback, as the steps look, mark and commit that nothing comes between |
| Payments.FinalizeLaw | apps/api/src/billing/payment-provider.service.ts:286-374 | for a pending order, either nothing changes, or it is paid, its effect is on the subscription of its organization only, and it has an invoice to the owner and an audit row |
| Payments.EffectLaw | apps/api/src/billing/payment-provider.service.ts:334-363 | when an order takes effect, and what it leaves of the subscription: the module and its alias, or the months |
| Payments.PaymentProviderService.HandleWebhook | apps/api/src/billing/payment-provider.service.ts:211-244 | a failed webhook fails a pending order only; any other finalises the order |
| Payments.PaymentProviderService.ConfirmPaymentOrder | apps/api/src/billing/payment-provider.service.ts:188-193 | a confirmation with a valid token finalises the order |
| PaymentRuns.RunIsConsistent | apps/api/src/billing/payment-provider.service.ts:286-374 | invoices and audit rows belong to paid orders, one each, with their terms; a marked order is pending and marked once |
| PaymentRuns.OrdersAreAppliedOnce | apps/api/src/billing/payment-provider.service.ts:286-374 | over any interleaving the orders that took effect are exactly the paid ones, each once |
| PaymentRuns.StatusIsFinal | apps/api/src/billing/payment-provider.service.ts:224-233 | an order leaves the pending state at most once and then never changes |
| PaymentRuns.InvoicedIffBilled | apps/api/src/billing/billing-platform.service.ts:72-135 | an order has an invoice exactly when the owner was known at its commit or at a later confirmation |
| PaymentRuns.PaidIsInvoicedOnce | apps/api/src/billing/billing-platform.service.ts:53-135 | every paid order has exactly one invoice and one audit row, as long as owners do not vanish |
| PaymentSubscriptions.CommitWrites | apps/api/src/billing/payment-provider.service.ts:334-363 | what a commit writes to the subscription, counted from the end that its transaction has read |
| PaymentSubscriptions.CommitsIff | apps/api/src/billing/payment-provider.service.ts:334-363 | a marked transaction takes effect exactly when its module is known and the subscription it needs was there and is |
| PaymentSubscriptions.CommitProlongsTheStoredEndIff | apps/api/src/billing/billing.service.ts:23-42 | a commit prolongs the stored end exactly when the end it read comes to the same date; for an increasing calendar, exactly when the two agree from now on |
| PaymentSubscriptions.CommitKeepsModulesIff | apps/api/src/subscription/subscription-access.service.ts:473-518 | a commit that grants a module keeps all others exactly when it had read them |
| PaymentSubscriptions.EndIsThatOfPaidOrders | apps/api/src/billing/billing.service.ts:16-44 | if every commit reads the stored end, the subscription ends where its paid orders, each taken once, take it |
| PaymentSubscriptions.EndNeverMovesBack | apps/api/src/billing/billing.service.ts:29-36 | and at no time does a paid order move the end back |
| PaymentSubscriptions.ModulesAreThoseOfPaidOrders | apps/api/src/subscription/subscription-access.service.ts:473-518 | if every commit reads the stored modules, the subscription has those it had and all that were paid for |
| PaymentSubscriptions.SubscriptionIsProlongedOnce | apps/api/src/billing/billing.service.ts:16-44 | in particular if no two transactions that prolong a subscription overlap, whatever else does |
| PaymentSubscriptions.OverlapLosesMonths | apps/api/src/billing/billing.service.ts:23-42 | two overlapping transactions that prolong: both orders are paid, the months of one are lost |
| PaymentSubscriptions.OverlapLosesModules | apps/api/src/subscription/subscription-access.service.ts:473-518 | two overlapping transactions that grant modules: both orders are paid, the module of one is lost |
| PaymentSubscriptions.OverlapIsReached | apps/api/src/billing/payment-provider.service.ts:286-315 | such transactions are reached from an empty table of orders |
| PaymentSubscriptions.MonthIsLost | apps/api/src/billing/billing.service.ts:23-42 | a run from the start with two paid months of which one is added |
| PaymentSubscriptions.ModuleIsLost | apps/api/src/subscription/subscription-access.service.ts:473-518 | a run from the start with two paid modules of which one is granted |
| RateStatus.CbarRateSyncService.ResolveStatusForDay | apps/api/src/fx/cbar-rate-sync.service.ts:166-214 | the status, for some row of the date that is found first |
| RateStatus.CbarRateSyncService.StoredMainChangedVsDoc | apps/api/src/fx/cbar-rate-sync.service.ts:332-348 | true exactly when USD or EUR is stored, in the document, and different to four places |
| RateStatus.CbarRateSyncService.PersistParsedDoc | apps/api/src/fx/cbar-rate-sync.service.ts:103-138 | upserts every rate with the resolved status |
| RateStatus.UpsertAt | apps/api/src/fx/cbar-rate-sync.service.ts:109-133 | rows of codes in the document get its last rate for them, all other rows stay |
| RateStatus.PreliminaryIff | apps/api/src/fx/cbar-rate-sync.service.ts:166-214 | a date is preliminary exactly when USD and EUR are those of the day before and the row found, if any, is preliminary and neither is replaced |
| RateStatus.PersistWrites | apps/api/src/fx/cbar-rate-sync.service.ts:103-133 | value, nominal, rate and status of a row that a document writes |
| RateStatus.PersistKeeps | apps/api/src/fx/cbar-rate-sync.service.ts:103-133 | rows of other dates and of codes not in the document stay as they were |
| RateStatus.StatusAfter | apps/api/src/fx/cbar-rate-sync.service.ts:103-138 | the rows of the date share the new status exactly when the rows not overwritten had it |
| RateStatus.PersistAgainIff | apps/api/src/fx/cbar-rate-sync.service.ts:103-138 | persisting any document again changes nothing exactly when it writes nothing or resolves to the same status |
| RateStatus.PersistTwice | apps/api/src/fx/cbar-rate-sync.service.ts:103-214 | if it overwrites all rows of its date: exactly when the date was final or the document has no second, other rate for USD or EUR |
| RateStatus.StatusIsShared | apps/api/src/fx/cbar-rate-sync.service.ts:170-181 | with the same codes per date all rows of a date share one status in every reachable state, whichever row is found first |
| RateStatus.FinalNeverReverts | apps/api/src/fx/cbar-rate-sync.service.ts:173-175 | and a final rate stays final |
| RateStatus.RatesFromTheStart | apps/api/src/fx/cbar-rate-sync.service.ts:103-214 | both, for all runs from the empty table |
| RateStatus.MixedStatus | apps/api/src/fx/cbar-rate-sync.service.ts:177-181 | documents with different codes that leave two statuses on a date |
| Words.ComputeTriads | apps/web/lib/amount-to-words.ts:17-26 | the groups of three digits, lowest first |
| Words.TriadsValue | apps/web/lib/amount-to-words.ts:17-26 | the groups add up to the number |
| Words.ComputeIntToWords | apps/web/lib/amount-to-words.ts:58-109 | the words of both languages, highest group first |
| Words.IntReads | apps/web/lib/amount-to-words.ts:37-109 | the words of a number below 10^12 read back as the number, in the order of the grammar, with each scale word in the form its group asks for |
| Words.IntReadsLess | apps/web/lib/amount-to-words.ts:58-109 | from 10^12 on the words of a number read as a smaller number |
| Words.AmountRoundTrip | apps/web/lib/amount-to-words.ts:111-123 | in both languages the text decodes, exactly below 10^12 manats, to the manats and then the kopeks, each noun in the form its number asks for; the gender is wrong for Russian kopeks ending in one or two only |
| Words.TextReadsAsWords | apps/web/lib/amount-to-words.ts:3-6 | the text starts with a capital and is otherwise the words with single spaces |
| Words.AmountIsInjective | apps/web/lib/amount-to-words.ts:111-123 | the text determines the amount |
| Words.BoundIsTight | apps/web/lib/amount-to-words.ts:61-66 | at 10^12 both languages print the words of another number |
| Iban.ValidateAzIban | apps/api/src/banking/iban.util.ts:11-38 | the verdict: empty, bad format, checksum failed or valid |
| Iban.Remainder | apps/api/src/banking/iban.util.ts:24-32 | the streamed remainder is the remainder of the whole expanded number, for texts of any length |
| Iban.SubstitutionIsNoticed | apps/api/src/banking/iban.util.ts:26-32 | a digit put for a digit, or a letter for a letter, always changes the remainder |
| Iban.DigitForLetter | apps/api/src/banking/iban.util.ts:27-28 | exactly when a digit put for a letter goes unnoticed |
| Iban.SwapIsNoticed | apps/api/src/banking/iban.util.ts:26-32 | a swap of unequal neighbours goes unnoticed exactly for a digit and a letter of eleven times its value |
| Iban.ChangedIban | apps/api/src/banking/iban.util.ts:24-34 | a valid number with one such character changed in the account part is not valid |
| Iban.ChangedCheckDigit | apps/api/src/banking/iban.util.ts:24-34 | nor with one changed in the check number |
| Iban.SwappedIban | apps/api/src/banking/iban.util.ts:24-34 | a swap in the account part leaves it valid exactly for 1B, 2M and 3X |
| Iban.CheckNumberIsUnique | apps/api/src/banking/iban.util.ts:24-34 | exactly one check number from 02 to 98 for each account part, and which other pairs are taken |
| JsonDiff.Walker.Walk | apps/web/lib/audit-json-diff.ts:25-49 | the recursive walk appends the rows of the difference, below its path |
| JsonDiff.BuildJsonDiff | apps/web/lib/audit-json-diff.ts:19-53 | the rows are those of `Diff` |
| JsonDiff.DiffIsPatch | apps/web/lib/audit-json-diff.ts:19-53 | applying the rows to the old value gives the new one, up to the order of keys |
| JsonDiff.NoRowsIffSame | apps/web/lib/audit-json-diff.ts:19-53 | there is no row exactly when the values are equal up to the order of keys |
| JsonDiff.RowsAreTrue | apps/web/lib/audit-json-diff.ts:32-48 | every row reports a real difference with the values at its path |
| JsonDiff.RowsArePartings | apps/web/lib/audit-json-diff.ts:25-49 | there is a row exactly for each path at which the values part; no row reports two objects |
| JsonDiff.RowsAreInOrder | apps/web/lib/audit-json-diff.ts:37-48 | rows come in the order of the keys, old object first, so no path has two |

## Left out

- Prisma, HTTP, queues, schedules, the parsing of documents and roles: tables are values, times and tokens are parameters.
- NettingLaws.AllocationIsSplitInvariant: the first amount has at most four decimals; for finer ones it is false, as SplitOfFineAmounts shows, and SplitPaysTheSameIff says when the paid sums agree.
- AuditChain.SerialLogIsClean: the hashed content is one text; how it is spelled as JSON, and SHA-256 itself, are an abstract injective function.
- AuditChain.AuditService.PersistAfterMutation: only the hash chain; entity snapshots and masking are not modelled.
- Payments.PaymentProviderService.ConfirmPaymentOrder: tokens and signatures are booleans.
- Payments.PaymentProviderService.FinalizePaidOrder: the row of `organization_modules` written besides the subscription is not modelled.
- Payments.PaymentProviderService.RecordPaidOrderInvoice: the billing status of the organization, set to active with the invoice, is not modelled.
- Payments.PaymentProviderService.HandleWebhook: webhooks for subscription invoices and the external transaction id are not modelled.
- PaymentSubscriptions.SubscriptionIsProlongedOnce: for transactions that prolong without overlapping; EndIsThatOfPaidOrders needs only that the stored end is read. Changes of the end by an administrator are not events.
- RateStatus.CbarRateSyncService.PersistParsedDoc: the upserts of one document are one step; documents persisted at the same time are not interleaved.
- Iban.ValidateAzIban: starts from the text without white space and in capitals.
- Ancestry.Collector.AddWithAncestors: for wanted codes whose line of parents ends; on a cycle the original recursion does not return.
- Ancestry.TemplateImporter.CollectChain: likewise, on a cycle of templates the original loop does not end.
- Ancestry.TemplateImporter.ImportNasAccountFromTemplate: the mirroring it ends with is MirrorNasToIfrs; names and catalogue ids are not copied.
- FxRevaluation.FxRevaluationService.RunForOrganization: rates are given; of the settings column only closed months, lock, tax status and the state of the revaluation are modelled.
- Words.AmountRoundTrip: starts from whole manats and kopeks, not from a floating-point amount, and from exact integers of any size.
- JsonDiff.BuildJsonDiff: paths are sequences of keys instead of dotted strings; keys that shadow members of the prototype are not modelled.
- Precision of the decimal library (20 digits): exact amounts are real numbers.
- Calendar arithmetic: a date is its month and its time; `setUTCMonth` is a parameter.
- The module cancellation lifecycle, the archive of audit rows, rows hashed without the chain, reports and all screens.
