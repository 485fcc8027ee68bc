# Syndicate accounting of horsesShit, in Dafny

horsesShit keeps the books of a horse-ownership syndicate. Users (buyers) own percentage
shares of horses. A horse's price is paid in monthly installments, each split into one
buyer installment per owner. Transactions move money:

- INGRESO is income paid in by an owner;
- EGRESO is an expense charged to the owners;
- PREMIO is prize money shared out to the owners;
- PAGO is a payment to the administrator.

A periodic sweep marks unpaid installments as overdue. Two front ends print a monthly report
per owner. The web front end also keeps a list of transaction concepts.

The code base holds three generations of the same back end:

- the newest under `prod/api/`;
- a middle one under `backend/prod/api/`;
- the oldest under `api/`, with its own `database.py`.

The copies differ in due dates, rounding, what processing a transaction does, and how owners'
installments are recalculated. This project models each copy's code as it is written, against
the schema that code expects (for the oldest crud module, the middle copy's schema; see below).
Where copies agree, one definition serves them all.

Modules, one per file:

- `calendar.dfy` (`Calendar`): Gregorian dates, `monthrange` and `timedelta(days=…)`.
- `money.dfy` (`Money`): `round(x, 2)`, percentage shares and their sums.
- `entities.dfy` (`Entities`): the rows, the errors, and `update_installment_status`.
- `session.dfy` (`Store`): the database session as a class with one sequence per table, plus the
  queries.
- `due_dates.dfy` (`DueDates`): the three due-date rules.
- `balances.dfy` (`Balances`): per-owner balance changes applied user by user.
- `shares.dfy` (`ShareChecks`): share-sum validation and `create_horse_buyer`.
- `prod_models.dfy` and `api_models.dfy` (`ProdModels`, `ApiModels`): field validators and CHECK
  constraints.
- `prod_schedule.dfy` (`ProdSchedule`): horse creation and its installment schedule, newest copy.
- `prod_crud.dfy` (`ProdCrud`): the newest copy's distribution, processing, payment and deletion
  of transactions, plus the expense-flag file.
- `prod_recalc.dfy` (`ProdRecalc`): the newest copy's `recalculate_installments`.
- `legacy_crud.dfy` (`LegacyCrud`): the same operations in the middle and oldest crud modules.
- `api_database.dfy` (`ApiDatabase`): the accounting helpers of `api/database.py`.
- `overdue.dfy` (`Overdue`): both copies of `check_overdue_installments`.
- `schemas.dfy` (`Schemas`): the type-dependent checks of the transaction schemas.
- `concept_helper.dfy` (`ConceptHelper`): the concept list of the web front end.
- `informe.dfy` (`Informe`): the monthly owner report of both front ends.

Conventions:

- Money is exact `real`. `Money.Round2` is round-half-up to cents.
- The clock is a parameter `now`.
- Tables are sequences in insertion order, which stands for query order.
- A single `nextId` counter hands out primary keys.
- An operation that raises is modelled as a `Result` or `Outcome` error. The session is then left
  unchanged, which is what the rollback in the source does, unless the source committed before
  failing (payments, expenses): then what was committed stays.

## Model

| member | source | states |
|---|---|---|
| Calendar.DaysInMonth | prod/api/crud.py:96-97 | the day count `monthrange` returns: 28 to 31, 29 in February exactly in leap years, 30 exactly in April, June, September and November |
| Money.Round2 | prod/api/crud.py:321 | the result is whole cents and within half a cent of the input |
| Money.Round2OfCents | prod/api/crud.py:321 | an amount already in whole cents is unchanged by rounding |
| Money.Round2Idempotent | prod/api/crud.py:321 | rounding twice equals rounding once |
| Money.SharesSum | prod/api/crud.py:261-262 | the unrounded split of a total hands out total × (sum of percentages) / 100 |
| Money.SharesExact | prod/api/crud.py:261-262 | percentages summing to exactly 100 split a total exactly |
| Money.SharesWithinTolerance | prod/api/crud.py:261-262 | within the accepted 0.01 band, the split is off by at most 0.01 % of the total |
| Money.RoundedSumDeviation | prod/api/crud.py:320-325 | rounding each share moves the total by at most half a cent per share |
| Entities.UpdateInstallmentStatus | prod/api/crud.py:144-150 | PAID iff paid ≥ amount; PARTIAL iff 0 < paid < amount; PENDING otherwise; never OVERDUE; every other field kept; the same rule in backend/prod/api/crud.py:35-44, api/crud.py:47-55 and api/database.py:300-307 |
| Entities.StatusMonotone | prod/api/crud.py:144-150 | paying more never moves the derived status back from PAID or PARTIAL |
| Store.BuyersOf | prod/api/crud.py:200 | `horse.buyers` holds exactly the ownership rows of the horse, in table order |
| Store.BuyersOfAppend | prod/api/crud.py:536-542 | a new ownership row joins only its own horse's buyers, at the end |
| Store.PendingAmountAppend | prod/api/crud.py:761-771 | the pending amount of a table is the sum over its parts |
| Store.PendingAmountNonNegative | prod/api/crud.py:761-771 | with no overpaid row, a buyer's pending amount is never negative |
| Store.PendingAmountReplace | prod/api/crud.py:761-771 | replacing one row changes the pending amount by the difference of that row's contributions |
| Store.PendingAmountOverdueRow | backend/prod/api/crud.py:1291-1303 | an OVERDUE row leaves the pending sum: relabelling a PENDING row lowers it by exactly what the row owes |
| DueDates.CalculateDueDate | prod/api/crud.py:86-100 | installment n falls on the last day of the month n − 1 months after the start month, at midnight, and is a valid date |
| DueDates.FirstInstallmentInStartMonth | prod/api/crud.py:86-100 | installment 1 is due in the start month itself |
| DueDates.ConsecutiveDueDates | prod/api/crud.py:86-100 | installment n + 1 is due exactly one calendar month after installment n |
| DueDates.ScheduleMonthsAfterBilling | prod/api/crud.py:186-188 | as called by the schedule, installment i is due i months after the billing month, rolling over into the next year |
| DueDates.CalculateDueDateKeepingDay | backend/prod/api/crud.py:21-34 | the older rule, which keeps the base date's day: fails with InvalidDate exactly when that day does not exist in the target month; the same code at api/crud.py:37-46 |
| DueDates.KeepingDayFacts | backend/prod/api/crud.py:21-34 | when defined, the date is n months after the start month, with the base's day and time |
| DueDates.KeepingDayFailsOnMonthEnd | backend/prod/api/crud.py:21-34 | a horse created on 31 January 2024 with billing from January gets no first due date |
| DueDates.CalculateDueDateClamped | backend/prod/api/crud.py:21-34 | the corrected rule: the same month, with the day clamped to the month's length; always valid |
| DueDates.ClampedAgreesWhereDefined | backend/prod/api/crud.py:21-34 | the clamped rule agrees with the older one wherever the older one returns a date |
| DueDates.CalculateDueDateThirtyDays | api/database.py:248-252 | installment n is due 30 × n days after the base date, strictly later for n > 0, at the same time of day |
| DueDates.ThirtyDaysApart | api/database.py:248-252 | consecutive installments are exactly 30 days apart |
| Balances.Apply | prod/api/crud.py:320-325 | changing balances user by user keeps the same users, and every other field of each user row |
| Balances.ApplyAt | prod/api/crud.py:320-325 | each user ends with the old balance plus the sum of the changes addressed to that user |
| Balances.SumForDistinct | prod/api/crud.py:320-325 | when changes go to distinct users, each user receives exactly their own change |
| Balances.ApplyThenUndo | prod/api/crud.py:650-687 | applying changes and then their negation restores every balance |
| Balances.RoundedShares | prod/api/crud.py:321 | newest copy: each owner's change is that owner's share rounded to cents |
| Balances.ExactShares | backend/prod/api/crud.py:98-100 | older copies: each owner's change is the unrounded share |
| Balances.ExactSharesTotal | backend/prod/api/crud.py:98-100 | the unrounded changes add up to total × (sum of percentages) / 100 |
| Balances.RoundedSharesTotal | prod/api/crud.py:320-336 | the rounded changes differ from the unrounded ones by at most half a cent per owner |
| ShareChecks.ValidateHorseBuyers | prod/api/crud.py:464-476 | an empty list fails with NoBuyers; otherwise a sum more than 0.01 away from 100 fails; passes iff non-empty and within the band; the same code at backend/prod/api/crud.py:226-242 and api/crud.py:207-219 |
| ShareChecks.CheckCreationShares | prod/api/crud.py:261-264 | horse creation tests only the sum: passes iff it is within 0.01 of 100 |
| ShareChecks.CreationAndUpdateAgree | prod/api/crud.py:796-835 | horse creation and horse update accept the same share lists |
| ShareChecks.AcceptedSplitNearlyExact | prod/api/crud.py:464-476 | an accepted list splits any non-negative amount to within 0.01 % of it |
| ShareChecks.HorseShareTotalAppend | prod/api/crud.py:526-531 | a new ownership row adds its percentage to its own horse's total and to no other horse's |
| ShareChecks.CheckShareCap | prod/api/crud.py:532-535 | passes iff the existing total plus the new share is at most 100 |
| ShareChecks.CreateHorseBuyer | prod/api/crud.py:523-544 | refused with the cap error iff the cap is exceeded; refused, with nothing changed, iff the cap is exceeded, the percentage lies outside (0, 100] or the horse already has a row for the buyer; otherwise appends the row under a fresh key; the same code at backend/prod/api/crud.py:1134-1171 and api/crud.py:266-287 |
| ShareChecks.ShareCapPreserved | prod/api/crud.py:523-544 | a horse's share total stays at most 100 after any accepted new row |
| ProdModels.ValidateEmail | prod/api/models.py:117-121 | passes iff the address contains "@" |
| ProdModels.ValidatePercentage | prod/api/models.py:199-208 | passes iff 0 < p ≤ 100, which is the same bound as the CHECK constraint |
| ProdModels.NewBuyerInstallment | prod/api/models.py:255-257 | a new row starts with nothing paid and status PENDING |
| ProdModels.DefaultStatusConsistent | prod/api/models.py:271-279 | the default status matches the derived status exactly when the amount is positive, and such a row passes the CHECK constraints |
| ApiModels.ValidatePositive | api/models.py:91-94 | passes iff the value is positive; the same code at api/database.py:107-111 |
| ApiModels.ValidateInstallmentAmountLenient | api/database.py:113-120 | skipped for a zero total; otherwise fails iff total and amount × n differ by more than 0.01 |
| ApiModels.ValidateInstallmentAmountStrict | api/models.py:96-101 | passes iff the total is zero or the two differ by less than 0.01 |
| ApiModels.InstallmentToleranceBoundary | api/models.py:96-101 | at a difference of exactly 0.01 the two copies disagree |
| ApiModels.StrictImpliesLenient | api/database.py:113-120 | whatever the strict copy accepts, the lenient copy accepts |
| ApiModels.EvenSplitAccepted | api/database.py:113-120 | the even split total / n passes both copies |
| ApiModels.ValidatePercentage | api/models.py:128-133 | passes iff 0 < p ≤ 100; the same code at api/database.py:153-157 |
| ApiModels.ValidatedHorseCoversTotal | api/models.py:80-101 | a horse that passes the validators has installments covering the total within 0.01, and passes the CHECK constraints when its amount is positive |
| ProdSchedule.SharesFor | prod/api/crud.py:200-215 | one buyer row per owner, in `horse.buyers` order, with consecutive keys |
| ProdSchedule.Schedule | prod/api/crud.py:183-215 | the first `count` installments and one group of buyer rows for each |
| ProdSchedule.ScheduleKeys | prod/api/crud.py:183-215 | installment k takes key firstId + k × (owners + 1), and the next free key follows the last group |
| ProdSchedule.ScheduleAt | prod/api/crud.py:183-215 | entry k is installment k + 1, and its group holds the owners' rows for it, keyed right after it |
| ProdSchedule.BuildSchedule | prod/api/crud.py:183-215 | the loops build exactly the schedule of installments 1..n |
| ProdSchedule.BuildShares | prod/api/crud.py:200-215 | the inner loop over `horse.buyers` computes exactly `SharesFor` |
| ProdSchedule.ScheduledInstallmentFacts | prod/api/crud.py:183-196 | installment k + 1 costs round(total / n, 2) and is due on the rule's date; its (mes, año) come from the due date |
| ProdSchedule.ScheduledRowFacts | prod/api/crud.py:200-215 | each owner's row is the rounded share of the unrounded price, nothing paid, PENDING, with the installment's period |
| ProdSchedule.ScheduleSplitDeviation | prod/api/crud.py:200-215 | owner rows are rounded one by one, so they add up to the unrounded price only to within 0.0001 of it plus half a cent per owner |
| ProdSchedule.NewShares | prod/api/crud.py:283-289 | one ownership row per entry of `buyers_data`, with its buyer, its percentage and a consecutive key |
| ProdSchedule.CheckCreationRows | prod/api/crud.py:266-305 | passes iff every new row meets the validators and constraints; a failure is a bad percentage or a constraint violation, and a bad percentage is reported iff one exists |
| ProdSchedule.PlanCreationSpec | prod/api/crud.py:244-307 | fails with the share-sum error iff the sum is off; otherwise writes the horse, its owners and the whole schedule under fresh keys, or fails with nothing written |
| ProdSchedule.BuildCreation | prod/api/crud.py:244-307 | builds exactly the planned creation |
| ProdSchedule.CreateHorseWithBuyers | prod/api/crud.py:244-307 | on success the session gains exactly the planned rows; on failure it is unchanged |
| ProdCrud.FlagAfterSet | prod/api/crud.py:130-138 | after a flag is set, reading it gives the stored value; every other pair reads as before |
| ProdCrud.EgresoStore.constructor | prod/api/crud.py:105-125 | a missing or unreadable flag file loads as the empty map |
| ProdCrud.EgresoStore.SetPaid | prod/api/crud.py:130-141 | stores the flag for the (expense, user) pair and changes nothing else |
| ProdCrud.EgresoStore.IsPaid | prod/api/crud.py:136-139 | the stored flag, or false when none is stored |
| ProdCrud.ExpenseFlagsSet | prod/api/crud.py:329-347 | after an expense, every owner with a user row reads as paid for it, and every other flag is unchanged |
| ProdCrud.ExpenseState | prod/api/crud.py:329-347 | after a successful expense, the state is the one `Expense` returns; without a horse, nothing changes |
| ProdCrud.ExpenseCommitsBeforeFailing | prod/api/crud.py:329-345 | an expense on a horse with an owner lacking a user row fails, yet every other owner stays debited by its rounded share and flagged as paid |
| ProdCrud.TransactionBuyers | prod/api/crud.py:319-320 | `transaction.horse.buyers` exists iff the transaction names an existing horse, and is then its ownership rows |
| ProdCrud.Process | prod/api/crud.py:392-409 | PAGO changes nothing; only INGRESO moves ownership balances; only EGRESO sets flags; INGRESO leaves user balances alone; an EGRESO succeeds only when every owner has a user row |
| ProdCrud.OwnerShareApplied | prod/api/crud.py:308-327 | with distinct owners, a prize past its waiting period credits each owner's user exactly the rounded share |
| ProdCrud.NonOwnerUntouched | prod/api/crud.py:308-347 | a user owning no share of the horse is untouched by its prize or expense |
| ProdCrud.PrizeTotalNearExact | prod/api/crud.py:308-327 | a prize hands out total × (sum of percentages) / 100, to within half a cent per owner |
| ProdCrud.ApplyOwnerShares | prod/api/crud.py:320-325 | the loop over the owners applies exactly the list of changes |
| ProdCrud.DistributePrize | prod/api/crud.py:308-327 | the session changes exactly as `Prize` says; a failure leaves it unchanged |
| ProdCrud.DistributeExpense | prod/api/crud.py:329-347 | succeeds iff `Expense` does, with its error; the users and flags always become `ExpenseState`, so the debits stay when the second loop fails after the commit; nothing else changes |
| ProdCrud.UpdateTotalBalances | prod/api/crud.py:342-345 | the second loop fails iff some owner has no user row |
| ProdCrud.MarkOwnersPaid | prod/api/crud.py:332-337 | the loop over the owners sets the paid flag of exactly the owners with a user row, as `ExpenseFlags` says |
| ProdCrud.DistributeIncomePayment | prod/api/crud.py:348-367 | the payer's first ownership row on the horse gains the amount; without one, nothing changes |
| ProdCrud.ProcessTransaction | prod/api/crud.py:392-409 | succeeds iff `Process` does, with its error; on success the session and flag file are `Process`'s result; a refused income or prize is rolled back; an expense leaves `ExpenseState` behind even when it fails |
| ProdCrud.ApplyPayment | prod/api/crud.py:694-711 | PAID is refused; more than what is left is refused; a result outside the CHECK constraints is refused; otherwise the amount is added, the status re-derived, and 0 ≤ paid ≤ amount |
| ProdCrud.ExactRemainderSettles | prod/api/crud.py:700-711 | paying exactly what is left settles the row as PAID |
| ProdCrud.PaymentsCompose | prod/api/crud.py:700-711 | two accepted payments have the effect of one payment of their sum |
| ProdCrud.NegativePaymentAccepted | prod/api/crud.py:700-711 | a negative payment is accepted and lowers the amount paid |
| ProdCrud.ProcessPayment | prod/api/crud.py:688-727 | the row changes as `ApplyPayment` says, and only when asked is the owner's user credited with the payment; a refused payment changes nothing; a missing ownership row or user fails after the row change is committed, which stays |
| ProdCrud.ShiftShares | prod/api/crud.py:656-673 | every ownership row of the horse moves by its rounded share; other rows are unchanged |
| ProdCrud.DeleteAfterPrize | prod/api/crud.py:656-662 | deleting a distributed prize restores every user balance but also lowers the horse's ownership balances |
| ProdCrud.DeleteAfterPrizeMovesShareBalance | prod/api/crud.py:659-661 | so every ownership row whose rounded share is non-zero ends up changed |
| ProdCrud.DeleteProcessedIncomeFails | prod/api/crud.py:663-668 | deleting a processed income always fails on its unbound name |
| ProdCrud.CorrectedDeleteUndoesProcess | prod/api/crud.py:650-680 | with the corrected reversal, deleting right after processing restores the ledger exactly |
| ProdCrud.ShiftOwnerBalances | prod/api/crud.py:659-673 | the loop computes exactly `ShiftShares` |
| ProdCrud.DeleteTransaction | prod/api/crud.py:650-680 | an unknown key gives false and changes nothing; otherwise the reversal is applied and the row removed, or on failure nothing changes |
| ProdRecalc.ReviseRow | prod/api/crud.py:425-447 | rows of other installments are kept; an existing owner's row gets the new rounded amount and a re-derived status; a row whose owner is gone is dropped |
| ProdRecalc.Revised | prod/api/crud.py:425-447 | the pass never adds rows |
| ProdRecalc.RevisedFrom | prod/api/crud.py:425-447 | every row left is the revision of an existing row |
| ProdRecalc.RevisedKeeps | prod/api/crud.py:425-447 | every revision of an existing row is left |
| ProdRecalc.Missing | prod/api/crud.py:434-443 | new rows only for owners without one: nothing paid, PENDING, consecutive keys |
| ProdRecalc.MissingCovers | prod/api/crud.py:434-443 | every owner without a row for the installment gets one |
| ProdRecalc.ReviseRows | prod/api/crud.py:425-447 | the loop computes exactly `Revised` |
| ProdRecalc.AddMissingRows | prod/api/crud.py:425-443 | the loop computes exactly `Missing` |
| ProdRecalc.RecalcRows | prod/api/crud.py:414-447 | the loop over the installments computes exactly `Recalc`: revised rows, new rows for missing owners, the next key and whether every write passes |
| ProdRecalc.RecalculateInstallments | prod/api/crud.py:412-456 | the table becomes the recalculated rows when every check passes; otherwise it is unchanged |
| ProdRecalc.RecalcSkipped | prod/api/crud.py:414-423 | installments that are all past due or of another horse leave the table as it was |
| ProdRecalc.RecalcOkPrefix | prod/api/crud.py:412-456 | a failed check in any prefix fails the whole recalculation |
| ProdRecalc.RecalcNewOwnerFails | prod/api/crud.py:436-443 | as written, an owner lacking a row for the first recalculated installment makes the recalculation fail |
| ProdRecalc.CorrectedStepPasses | prod/api/crud.py:436-443 | with (mes, año) filled in, a pass succeeds whenever every owner's part is positive |
| ProdRecalc.CorrectedStepCoversOwners | prod/api/crud.py:425-443 | with the corrected pass, every current owner has a row afterwards |
| LegacyCrud.LegacyShares | backend/prod/api/crud.py:75-86 | one row per owner, with the unrounded share of the unrounded price, nothing paid, PENDING |
| LegacyCrud.LegacySchedule | backend/prod/api/crud.py:45-91 | fails only with InvalidDate; on success, `count` installments and groups; the same loops at api/crud.py:56-90 |
| LegacyCrud.ExtendSchedule | backend/prod/api/crud.py:50-86 | one outer turn adds one installment and one group, or fails on a missing date |
| LegacyCrud.LegacyScheduleFails | backend/prod/api/crud.py:50-60 | the schedule fails exactly when one of its due dates does not exist |
| LegacyCrud.LegacyScheduleStops | backend/prod/api/crud.py:45-91 | a failed schedule stays failed when extended |
| LegacyCrud.LegacyScheduleAt | backend/prod/api/crud.py:50-86 | entry k is installment k + 1, with its own due date and owners' rows |
| LegacyCrud.LegacyScheduleKeys | backend/prod/api/crud.py:50-86 | installment k takes key firstId + k × (owners + 1), and its rows follow it |
| LegacyCrud.LegacyScheduleFacts | backend/prod/api/crud.py:50-86 | installment k + 1 has the older rule's due date and the price total / n; each row is the owner's share |
| LegacyCrud.BackendPeriodMatchesDueMonth | backend/prod/api/crud.py:51-69 | the middle copy records the due date's month; it records the due date's year only when that is the current year |
| LegacyCrud.BuildLegacyShares | backend/prod/api/crud.py:75-86 | the inner loop computes exactly `LegacyShares` |
| LegacyCrud.ScheduleTurn | backend/prod/api/crud.py:50-86 | one outer turn computes exactly `ExtendSchedule` |
| LegacyCrud.BuildLegacySchedule | backend/prod/api/crud.py:45-91 | the loops compute exactly `LegacySchedule` |
| LegacyCrud.CreateInstallmentsForHorse | backend/prod/api/crud.py:45-91 | the session gains the schedule, or stays unchanged on a missing date |
| LegacyCrud.LegacyProcess | backend/prod/api/crud.py:163-182 | keeps the same users; the only failure is a missing relation; the same code at api/crud.py:153-172 |
| LegacyCrud.LegacyProcessTransaction | backend/prod/api/crud.py:163-182 | the session changes exactly as `LegacyProcess` says |
| LegacyCrud.LegacyOwnerShare | backend/prod/api/crud.py:94-109 | with distinct owners, each owner's user gains exactly the unrounded share of a prize |
| LegacyCrud.LegacyExpenseUndoesPrize | backend/prod/api/crud.py:94-127 | an expense of the same amount on the same horse undoes a prize exactly |
| LegacyCrud.PayInFull | backend/prod/api/crud.py:1229-1254 | PAID is refused; otherwise the row is paid in full and PAID; the same code at api/crud.py:355-375 |
| LegacyCrud.PayInFullOnce | backend/prod/api/crud.py:1229-1254 | paying a row twice is refused the second time |
| LegacyCrud.PayInFullClearsPending | backend/prod/api/crud.py:1229-1254 | paying a row in full lowers its owner's pending amount by exactly what it owed |
| LegacyCrud.LegacyProcessPayment | backend/prod/api/crud.py:1229-1254 | the row is paid in full and the owner's ownership row loses what the row owed; a refused payment changes nothing; a missing ownership row or user fails after the row change is committed, which stays |
| LegacyCrud.WithoutInstallment | backend/prod/api/crud.py:196-198 | keeps exactly the rows of other installments |
| LegacyCrud.FreshRows | backend/prod/api/crud.py:201-210 | one new row per owner, with the unrounded share of the installment |
| LegacyCrud.RecreateDiscardsPayments | backend/prod/api/crud.py:185-218 | afterwards every row either was there before and belongs to another horse, or is a fresh row with nothing paid |
| LegacyCrud.DeleteInstallmentRows | backend/prod/api/crud.py:196-198 | the deletion computes exactly `WithoutInstallment` |
| LegacyCrud.CreateRows | backend/prod/api/crud.py:201-210 | the loop computes exactly `FreshRows` |
| LegacyCrud.RecreateRows | backend/prod/api/crud.py:185-218 | the loop over installments computes exactly `Recreate`; the same code at api/crud.py:173-206 |
| LegacyCrud.RecreateInstallments | backend/prod/api/crud.py:185-218 | the table becomes the recreated rows when all checks pass; otherwise it is unchanged |
| ApiDatabase.ThirtyDayShares | api/database.py:239-244 | one row per owner: stored amount × percentage / 100, nothing paid, PENDING |
| ApiDatabase.ThirtyDaySchedule | api/database.py:229-244 | `count` installments, each with one row per owner |
| ApiDatabase.ThirtyDayScheduleAt | api/database.py:229-244 | entry k is installment k + 1, with its owners' rows keyed after it |
| ApiDatabase.ThirtyDayScheduleFacts | api/database.py:229-244 | installment k + 1 is priced at the stored amount and due 30 × (k + 1) days after creation, which is strictly later |
| ApiDatabase.BuildThirtyDayShares | api/database.py:239-244 | the inner loop computes exactly `ThirtyDayShares` |
| ApiDatabase.BuildThirtyDaySchedule | api/database.py:229-244 | the outer loop computes exactly `ThirtyDaySchedule` |
| ApiDatabase.CreateHorseInstallments | api/database.py:227-245 | the session gains the schedule over `horse.buyers` under fresh keys |
| ApiDatabase.Greedy | api/database.py:263-275 | the leftover never exceeds the income |
| ApiDatabase.GreedyRows | api/database.py:263-275 | a row that is not eligible is untouched; an eligible one gains min(what it owes, what is left) with its status re-derived |
| ApiDatabase.GreedyConserves | api/database.py:263-275 | money is conserved: what the rows gained is what the income lost |
| ApiDatabase.GreedyApplied | api/database.py:263-275 | a non-negative income applies min(income, what the eligible rows owe); a non-positive income changes nothing |
| ApiDatabase.GreedyPrefix | api/database.py:263-275 | the spread is prefix-closed |
| ApiDatabase.GreedyLeftover | api/database.py:263-275 | money left over means every eligible row is PAID |
| ApiDatabase.GreedyInOrder | api/database.py:263-275 | rows are paid in query order: a row that receives money comes after eligible rows that are all PAID |
| ApiDatabase.GreedyStops | api/database.py:263-275 | once the income is used up, the remaining rows are untouched |
| ApiDatabase.SpreadIncome | api/database.py:263-275 | the loop with its early exit computes exactly `Greedy` |
| ApiDatabase.DistributeInstallmentPayment | api/database.py:263-275 | without a horse, fails with nothing changed; otherwise the horse's rows become the greedy spread |
| ApiDatabase.ActiveOnly | api/database.py:374-375 | exactly the active ownership rows, in order |
| ApiDatabase.ApiDistribute | api/database.py:278-284 | keeps the same users; fails, with a missing relation, iff there is no horse or some owner it reaches (every owner for a prize, the active ones for an expense) has no user row; the expense is at api/database.py:372-378 |
| ApiDatabase.ExpenseSkipsInactive | api/database.py:372-378 | an expense leaves alone every user without an active share of the horse |
| ApiDatabase.ExpenseDebitsActiveOwner | api/database.py:372-378 | an expense debits every active owner with distinct users by exactly its unrounded share |
| ApiDatabase.PrizeReachesEveryOwner | api/database.py:278-284 | a prize credits every owner with a distinct user, active or not, with exactly the unrounded share |
| ApiDatabase.ApiProcessTransaction | api/database.py:362-369 | INGRESO is spread over the horse's unpaid rows, PREMIO and EGRESO are distributed, and PAGO changes nothing |
| Overdue.Swept | prod/api/overdue_checker.py:21-37 | exactly the past-due PENDING rows become OVERDUE; the rest are unchanged |
| Overdue.DebitOne | backend/prod/api/overdue_checker.py:34-36 | the ownership row with that key is debited and the others are unchanged |
| Overdue.DebitedSnoc | backend/prod/api/overdue_checker.py:31-36 | one more past-due row debits its ownership row by what it owes |
| Overdue.SweepIdempotent | prod/api/overdue_checker.py:21-37 | a second sweep with the same time finds nothing to do |
| Overdue.SweepLowersPendingAmount | backend/prod/api/overdue_checker.py:21-42 | the sweep removes from a buyer's pending amount exactly what the newly overdue rows owed |
| Overdue.RerunDebitsNothing | backend/prod/api/overdue_checker.py:21-42 | rows swept once are never debited again |
| Overdue.SweepTurn | backend/prod/api/overdue_checker.py:31-39 | one turn relabels a past-due row and debits its owner when asked; an unreachable owner fails |
| Overdue.SweepRows | backend/prod/api/overdue_checker.py:21-39 | succeeds iff every past-due row reaches its owner, and then yields the swept rows and the debited owners |
| Overdue.CheckOverdueInstallments | prod/api/overdue_checker.py:12-45 | on success only the statuses change; a failure rolls back with nothing changed |
| Overdue.CheckOverdueAndDebit | backend/prod/api/overdue_checker.py:12-50 | on success the statuses change and each owner's balance drops by what the newly overdue rows owe; a failure rolls back |
| Schemas.ProdCreateCheck | prod/api/schemas.py:201-243 | accepted values are returned unchanged; an error names a required field of the type that is missing |
| Schemas.ProdCreateAcceptsIffComplete | prod/api/schemas.py:201-243 | accepted iff every field the type demands is supplied |
| Schemas.UpdateCheck | prod/api/schemas.py:259-276 | accepted values are unchanged; errors name horse_id or user_id; the same code at api/schemas.py:205-222 |
| Schemas.UpdateAcceptsIffComplete | prod/api/schemas.py:259-276 | accepted iff what the type demands is supplied; a value with no type is always accepted |
| Schemas.ProdCreateImpliesUpdate | prod/api/schemas.py:201-276 | whatever the create schema accepts, the update schema accepts |
| Schemas.ApiCreateCheck | api/schemas.py:178-194 | accepted values are unchanged; errors name horse_id or user_id |
| Schemas.CreateSchemasCompared | api/schemas.py:178-194 | on INGRESO the two create schemas demand different fields; on every other type the newest is the stricter |
| Schemas.ApiCreateAcceptsHorselessExpense | api/schemas.py:184-188 | the oldest schema accepts an EGRESO with no horse when some user is given; the newest refuses it |
| ConceptHelper.WithoutMatchesContents | front/src/lib/conceptHelper.ts:91-93 | the filter keeps exactly the non-matching concepts, in order |
| ConceptHelper.SubsequenceKeepsNoDuplicates | front/src/lib/conceptHelper.ts:86-105 | dropping entries keeps a list free of case duplicates |
| ConceptHelper.WithoutMatchesShorter | front/src/lib/conceptHelper.ts:94-100 | the list keeps its length exactly when nothing matched |
| ConceptHelper.TrimEndEmpty | front/src/lib/conceptHelper.ts:110-112 | trimming the end leaves nothing iff the text is all white space |
| ConceptHelper.TrimStartEmpty | front/src/lib/conceptHelper.ts:110-112 | trimming the start leaves nothing iff the text is all white space |
| ConceptHelper.ValidateConceptIff | front/src/lib/conceptHelper.ts:110-112 | a concept is valid iff it has a character that is not white space |
| ConceptHelper.ConceptStore.constructor | front/src/lib/conceptHelper.ts:29-38 | the store starts with the given file contents |
| ConceptHelper.ConceptStore.Concepts | front/src/lib/conceptHelper.ts:29-38 | the stored list, or empty when the file cannot be read |
| ConceptHelper.ConceptStore.GetConcepts | front/src/lib/conceptHelper.ts:29-38 | returns the current list and changes nothing |
| ConceptHelper.ConceptStore.AddConcept | front/src/lib/conceptHelper.ts:43-65 | added iff no stored concept matches ignoring case; an added concept goes at the end; a list without case duplicates stays so |
| ConceptHelper.ConceptStore.UpdateConcepts | front/src/lib/conceptHelper.ts:70-81 | the whole list is replaced |
| ConceptHelper.ConceptStore.DeleteConcept | front/src/lib/conceptHelper.ts:86-105 | deleted iff something matched; afterwards nothing matches; a list without case duplicates stays so |
| ConceptHelper.AddKeepsNoDuplicates | front/src/lib/conceptHelper.ts:43-65 | adding an unmatched concept keeps the list free of case duplicates |
| ConceptHelper.DeleteTwice | front/src/lib/conceptHelper.ts:86-105 | after a deletion nothing matches, and a second deletion reports false |
| Informe.ShareColumn | test/my-app/renderer/pages/informe.tsx:223-227 | a share is shown iff the transaction is a prize or an expense |
| Informe.ContributionMatchesColumn | front/src/app/informe/page.tsx:254-268 | prizes and expenses add or subtract exactly the share shown in their row; other types do not depend on the percentage |
| Informe.ContributionsAppend | front/src/app/informe/page.tsx:254-268 | the total over two runs of transactions is the sum of their totals |
| Informe.PaymentsIgnored | front/src/app/informe/page.tsx:254-268 | a payment leaves the total unchanged wherever it appears |
| Informe.FrontSelected | front/src/app/informe/page.tsx:221-226 | keeps exactly the transactions of the owner or the horse in the chosen month |
| Informe.RendererSelected | test/my-app/renderer/pages/informe.tsx:208-210 | keeps exactly the transactions of the chosen month |
| Informe.FrontAgreesWithRenderer | front/src/app/informe/page.tsx:221-281 | when every transaction is on the horse, both front ends select the same transactions, and their totals differ only by the balance |
| Informe.SumContributions | test/my-app/renderer/pages/informe.tsx:239-254 | the loop computes exactly the running total; the same loop at front/src/app/informe/page.tsx:254-268 |
| Informe.FrontBuyerTotal | front/src/app/informe/page.tsx:254-281 | the figure shown is the total with the owner's balance, rounded to cents and negated |
| Informe.RendererBuyerTotal | test/my-app/renderer/pages/informe.tsx:239-263 | the figure shown is the total rounded to cents |
| Informe.FrontReports | front/src/app/informe/page.tsx:172-281 | one figure per ownership row, each the negated rounded total |
| Informe.RendererReports | test/my-app/renderer/pages/informe.tsx:159-263 | one figure per ownership row, each the rounded total |

## Left out

- Routes, HTTP, the user interface and PDF drawing. The report pages' fetched horse, transactions
  and buyer installments are parameters.
- Logging, the JSON file I/O behind the expense flags and the concept list, and the scheduler that
  runs the overdue sweep. The file contents are fields; a file that cannot be read is `None`.
- Concurrency and sessions other than the one passed in.
- Floating point: amounts are exact reals, and `Money.Round2` rounds halves up. Python's binary
  `round` can differ at representation boundaries. `toFixed(2)` on display is modelled as
  `Round2`.
- `toLowerCase` beyond ASCII letters: `ConceptHelper.Lower` folds only A–Z.
- Raw schema values are typed as given. Pydantic's coercion of the values after the pre-validator
  is not part of this model.
- `update_transaction` and its re-processing of an edited transaction.
- `process_queued_transactions`: the model records when a prize is queued, but not the later
  replay.
- The INGRESO branch of the reversal in `delete_transaction` after its failing name lookup.
- The unreachable unknown transaction type.
- `update_total_balance`: its body in prod/api/models.py:133-138 is `pass`. Its docstring promises a
  sum over the user's active ownership rows, which the code never computes, so the model treats the
  call as changing nothing. It raises only when the user row is missing. The middle copy's models
  module is not part of this model, so its `update_total_balance` is taken to be the same no-op.
- User CRUD, horse deletion, and the read-only listings and balance details. Only the pending
  amount is modelled.
- Names, information text, images, DNI and e-mail uniqueness.
- Primary keys come from one counter for all tables, not one sequence per table.
- Foreign keys are not enforced. A dangling key is modelled by the error the code hits when it
  follows that key.
- The expense-flag file stores its keys as strings. The model keys flags by the (expense, user)
  pair.
- ProdCrud.DistributePrize, ProdCrud.DistributeExpense: the loops over `horse.buyers` are
  modelled by `ApplyOwnerShares` over the precomputed list of changes, not by one loop over rows.
- `horse.buyers` is read as the current ownership table. Relationship caching in the session is
  not modelled.
- A CHECK or NOT NULL violation in the older schemas is modelled as an error at the point where the
  row is written, not at flush time.
- LegacyCrud.CreateInstallmentsForHorse, LegacyCrud.LegacyProcess, LegacyCrud.LegacyProcessTransaction,
  LegacyCrud.LegacyProcessPayment: for the oldest crud module (`api/crud.py`, whose header names it a
  copy of the middle one), these are modelled against the schema that code expects, which is the middle
  copy's. Against its own api/models.py, that code raises instead:
  - `Horse.starting_billing_month` is missing (api/crud.py:60);
  - `Installment(..., mes=...)` has no such column and raises TypeError (api/crud.py:67);
  - `Transaction.user` is missing (api/crud.py:124);
  - `HorseBuyer.balance` is missing (api/crud.py:367);
  - `User.update_total_balance` is missing (api/crud.py:103, 119 and 372).
  Those failures are not modelled. The same holds for the `get_db` import of api/routes.py:13.
- ApiDatabase.CreateHorseInstallments: requires `installmentAmount.Some?`, because the column is
  NOT NULL and the validators set it before this is called.
- Schemas.ProdCreateCheck: says that the error names some missing required field, not which one
  comes first. The order is fixed by the definition itself.

## Findings

| source | as written | input that shows it | evidently intended | confidence | as-written member | corrected member |
|---|---|---|---|---|---|---|
| backend/prod/api/crud.py:21-34 | the due date keeps the base date's day, so a day that is missing in the target month raises ValueError | a horse created on 31 January 2024 with billing from month 1: installment 1 would fall on 31 February | the day clamped to the month's last day | not executed | DueDates.KeepingDayFailsOnMonthEnd | DueDates.ClampedAgreesWhereDefined |
| prod/api/crud.py:650-687 | deleting a PREMIO or EGRESO restores the users' balances but also shifts the ownership balances, which processing never touched; deleting an INGRESO fails on an unbound name | a prize of 100 on a horse with one owner at 100 %, processed and then deleted: the owner's share balance drops by 100 | deletion undoes exactly what processing did | not executed | ProdCrud.DeleteAfterPrizeMovesShareBalance | ProdCrud.CorrectedDeleteUndoesProcess |
| prod/api/crud.py:442-455 | `recalculate_installments` creates buyer rows without mes/año, which are NOT NULL at prod/api/models.py:271-272 | a horse whose new owner has no row for a future installment: the commit fails | new rows take the installment's period | not executed | ProdRecalc.RecalcNewOwnerFails | ProdRecalc.CorrectedStepCoversOwners |
