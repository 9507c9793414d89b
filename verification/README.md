# Banking ledger and recurring-payment scheduler

A Dafny model of the in-memory banking ledger of *sistema-de-banco* and of the
scheduler that runs its recurring payments. It covers:

- **Accounts.** Savings, checking and certificate-of-deposit accounts follow
  their state machine. The balance and the append-only transaction list change
  only through the guarded Deposit and Withdraw.
- **Account variants.** Each variant has its own rule: the savings monthly
  withdrawal cap, the checking overdraft floor, and the CD early-withdrawal
  penalty.
- **Interest.** The interest strategies post directly to the balance and skip
  those guards.
- **Loans.** Payments clamp the principal at zero; misses escalate Current →
  Delinquent → Defaulted; PaidOff is absorbing. The amortization table is
  built row by row.
- **The ledger (`BankService`).**
  - customer creation and status changes;
  - deposits and withdrawals under a per-operation ceiling;
  - transfers with status gates and currency conversion;
  - interest for all accounts;
  - both ways of creating a payment schedule, including the first due date.
- **The scheduler.** It moves due dates onto business days (Monday to Friday,
  except 1 January and 25 December). It executes, retries or escalates each
  schedule in list order, advances executed ones by a day or a clamped month,
  and counts what it executed.
- **Utilities.** Currency-checked `Money` addition, the fixed currency table,
  the masking of identifiers, the variant factories and the id counters.

## How the model is built

- **Dates** are day numbers. Day 0 is Monday 0001-01-01.
  - `Dates.Civil` gives the proleptic Gregorian year, month and day of a day
    number.
  - `AddMonths` clamps the day to the target month's length, as .NET does.
  - The clock (`DateTime.Today`, `DateTime.Now`) becomes parameters:
    `today` is the clock's date and `asOf` is the scheduler's run date.
- **Amounts.** `decimal` is modelled as exact `real`.
- **Objects the source updates in place are classes:**
  - `Account`, `Loan`, `PaymentSchedule`, `IdGenerator` and `BankService`.
  - Each has a `State()` snapshot datatype.
  - Every operation's effect on that snapshot is a pure function
    (`AfterDeposit`, `AfterWithdraw`, `Paid`, `Missed`, `Execute`, …).
  - The methods are proved against those functions, and the properties are
    proved as lemmas about the functions.
- **The account variants** are one class tagged with an `AccountKind`.
- **The ledger** holds its lists as sequences of objects.
  - `Valid()` requires every object to be consistent and listed only once.
  - Its methods state the new account, loan and schedule snapshots.
- **The scheduler's loop** (`ExecuteDuePayments`) is proved against `RunAll`.
  `RunAll` is a left-to-right pass of `Execute` over the schedules, with each
  schedule starting from the ledger the previous ones left.
  - `Execute` is split the way the loop body reads:
    - `Collect`: not yet due, or no source account;
    - `Due`: the withdrawal;
    - `Decline`: retry or escalate;
    - `Settle` and `Credit`: credit the destination and advance the schedule.
  - Each piece has a method that performs it on the ledger (`CollectStep`,
    `DueStep`, `DeclineStep`, `SettleStep`, `CreditStep`).

### Surprising behaviour of the code

- **A transfer from an account to itself is not refused**
  (`TransferToSelf`). `Transfer` looks both numbers up and never compares
  them, so the withdrawal and the deposit both land on the same account.
- **An exhausted schedule is not given up.** Once its retries are used up,
  the scheduler neither deactivates it nor moves its due date. Every later
  run attempts it again and registers another missed payment on a
  destination loan (`ExecuteExhausted`, `ExhaustionRepeats`).
- **The early CD branch checks neither the account's status nor the sign of
  the amount** (`CdEarlyBranchSkipsGuards`). So a Frozen CD pays out, and a
  negative amount raises its balance.
- **The full `SchedulePayment` throws when a monthly day of month is below
  1**, because the date constructor rejects day 0. It does not return false.
  The model makes that a precondition.
- **Scheduler payments credit the destination the schedule's amount
  unconverted, whatever the two currencies.** They go through the account's
  own `Withdraw`, so the ledger's 5000 withdrawal ceiling does not apply
  (`ExecuteCreditsUnconverted`).

## Model

| member | source | states |
|---|---|---|
| Domain.NetAppend | Domain/AccountBase.cs:15-16 | The balance a transaction list accounts for is additive over appending, so posting entries changes it by exactly their signed amounts |
| Money.PlusCommutesOnAmount | Domain/Money.cs:6-8 | Swapping the operands changes neither whether the addition succeeds nor the amount |
| Money.PlusAssociates | Domain/Money.cs:6-8 | Three amounts of one currency give the same sum whichever pair is added first |
| Money.PlusIgnoresCase | Domain/Money.cs:6 | "usd" plus "USD" succeeds, and the sum keeps the spelling "usd" |
| CurrencyConverter.UsdRate | Services/CurrencyConverter.cs:4-5 | Every table entry, looked up ignoring case, is a positive number of units per dollar |
| CurrencyConverter.ThroughDollars | Services/CurrencyConverter.cs:9 | Dividing by one positive rate and multiplying by another is undone by the reverse pair |
| CurrencyConverter.ConvertFromUsd | Services/CurrencyConverter.cs:5-9 | Dollars to dollars returns the amount unchanged, and dollars to X multiplies by X's rate |
| CurrencyConverter.ScaleKeepsSign | Services/CurrencyConverter.cs:9 | Scaling by positive rates keeps a positive amount positive and zero at zero |
| CurrencyConverter.ConvertKeepsSign | Services/CurrencyConverter.cs:5-9 | A positive amount converts to a positive amount, and zero to zero, between any two supported currencies |
| CurrencyConverter.ConvertRoundTrip | Services/CurrencyConverter.cs:6-10 | Converting to another supported currency and back returns the original amount in exact arithmetic |
| Text.EqualsIgnoreCaseIsEquivalence | Domain/Money.cs:6 | Equality ignoring the case of ASCII letters, which stands for ordinal-ignore-case comparison, is reflexive, symmetric and transitive |
| Text.Repeat | Services/Masking.cs:4 | `new string(c, n)` has length n and holds c at every position |
| Text.DigitChar | Domain/IdGenerator.cs:6 | A decimal digit renders as a character between '0' and '9' |
| Text.NatToString | Domain/IdGenerator.cs:6 | A number's decimal text is non-empty, made of digits only, and one character long exactly for numbers below 10 |
| Text.NatToStringInjective | Domain/IdGenerator.cs:6 | Different numbers have different decimal texts |
| Ids.AccountNumbersDiffer | Domain/IdGenerator.cs:6 | Different counter values give different account numbers, so a strictly increasing counter never repeats a number |
| Ids.IdGenerator.constructor | Domain/IdGenerator.cs:4-5 | The account counter starts at 100000 and the customer counter at 1 |
| Ids.IdGenerator.NewAccountNumber | Domain/IdGenerator.cs:6 | Returns "AC" followed by the current account counter, which then moves on by one; the customer counter is untouched |
| Ids.IdGenerator.NewCustomerId | Domain/IdGenerator.cs:8 | Returns the current customer counter, which then moves on by one; the account counter is untouched |
| Ids.FirstIds | Domain/IdGenerator.cs:4-8 | A fresh generator issues "AC100000" and then the different "AC100001", and customer id 1; the counters do not interfere |
| Ids.FirstAccountNumber | Domain/IdGenerator.cs:4-6 | The first account number is "AC100000" |
| Ids.SecondAccountNumber | Domain/IdGenerator.cs:4-6 | The second account number is "AC100001" |
| InterestStrategies.RateOf | Domain/RateCatalog.cs:4-9 | Every strategy's monthly and daily rate is positive |
| InterestStrategies.AccrualOfInterest | Services/InterestStrategies.cs:5-15 | Savings and CD strategies post exactly when the balance is positive: one Interest entry of balance times the period's rate, which the balance gains |
| InterestStrategies.AccrualOfOverdraftFee | Services/InterestStrategies.cs:19-29 | The checking strategy posts exactly when the balance is negative: one Fee entry of the overdraft times the period's rate, which the balance loses |
| InterestStrategies.AccrualKeepsNonNegative | Services/InterestStrategies.cs:33-39 | Interest on a savings account or a CD never makes a non-negative balance negative |
| Accounts.OpenedIsConsistent | Domain/AccountBase.cs:5-6 | A new account is Active, with balance 0 and no transactions, and satisfies every variant's account invariant |
| Accounts.DepositEffect | Domain/AccountBase.cs:15 | Deposit succeeds exactly when the account is Active and the amount positive; it then raises the balance by the amount and appends one Deposit entry after the untouched earlier ones |
| Accounts.DepositKeepsConsistent | Domain/AccountBase.cs:15 | A successful deposit keeps the invariant: the balance equals the signed sum of the transactions, the savings counter stays within 0..6, and savings and CD balances stay non-negative |
| Accounts.BaseWithdrawEffect | Domain/AccountBase.cs:16 | For checking and for a CD past its term, Withdraw succeeds exactly when the account is Active, the amount positive and funds sufficient; it then lowers the balance by the amount and appends one Withdrawal entry |
| Accounts.WithdrawKeepsConsistent | Domain/AccountBase.cs:16 | A successful withdrawal of any variant keeps the account invariant |
| Accounts.SavingsCapReached | Domain/SavingsAccount.cs:9 | Once six withdrawals were taken this month, a savings withdrawal fails whatever the balance |
| Accounts.SavingsWithdrawEffect | Domain/SavingsAccount.cs:6-12 | A savings withdrawal succeeds exactly when the cap is not reached, the account is Active, and the amount is positive and covered; it then uses up one monthly slot and lowers the balance by the amount |
| Accounts.CheckingWithdrawFloor | Domain/CheckingAccount.cs:6 | A checking withdrawal succeeds exactly when the account is Active, the amount positive and the result not below minus the overdraft limit in force; a success leaves the balance at or above that floor |
| Accounts.CheckingOverdraftBoundary | Domain/CheckingAccount.cs:5-6 | From balance 0 with the default limit of 200, withdrawing 200 succeeds and leaves -200, while 200.01 fails |
| Accounts.CdEarlyWithdrawEffect | Domain/CertificateOfDeposit.cs:10-17 | Before termMonths × 30 days, a CD withdrawal succeeds exactly when the balance covers the amount plus 2%. It then takes both and appends a Withdrawal entry and then a Fee entry |
| Accounts.CdMatureWithdrawEffect | Domain/CertificateOfDeposit.cs:19 | From the end of the term on, a CD withdrawal is the base withdrawal, with no fee |
| Accounts.WithdrawNeverOverdrawsWithoutOverdraft | Domain/CertificateOfDeposit.cs:7 | No successful withdrawal from a savings account or a CD leaves a negative balance |
| Accounts.CdEarlyBranchSkipsGuards | Domain/CertificateOfDeposit.cs:10-17 | The early branch checks neither status nor sign: a Frozen CD still pays out early, and a negative amount raises the balance |
| Accounts.InactiveSavingsWithdrawFails | Domain/SavingsAccount.cs:10-11 | A withdrawal from a Frozen or Closed savings account fails, so it uses up no monthly slot |
| Accounts.NoStrategyNoInterest | Domain/AccountBase.cs:18 | ApplyInterest with no strategy attached changes nothing except the savings counter reset |
| Accounts.SavingsCounterReset | Domain/SavingsAccount.cs:14 | After ApplyInterest, the savings counter is 0 exactly on a monthly run dated the 1st and unchanged otherwise |
| Accounts.InterestIgnoresStatus | Services/InterestStrategies.cs:5-15 | Interest ignores the account status: a Frozen savings account with a positive balance still gains interest |
| Accounts.OverdraftFeeCanPassLimit | Services/InterestStrategies.cs:23-26 | The overdraft fee is not bound by the overdraft limit: a checking account at -200 goes to -203 after a monthly run |
| Accounts.InterestKeepsConsistent | Domain/AccountBase.cs:18 | Applying interest keeps the account invariant for an account that carries its own variant's strategy |
| Accounts.Account.constructor | Domain/AccountBase.cs:5-6 | Draws the next account number from the counter, stores the customer and currency, and opens the account Active, empty and consistent |
| Accounts.Account.SetStatus | Domain/AccountBase.cs:14 | Sets any status unconditionally; the balance, transactions and counters are unchanged |
| Accounts.Account.SetOverdraftLimit | Domain/CheckingAccount.cs:5 | The settable overdraft limit of a checking account; nothing else changes |
| Accounts.Account.Deposit | Domain/AccountBase.cs:15 | Returns whether the deposit is allowed and, exactly then, moves the account to its post-deposit state; otherwise nothing changes |
| Accounts.Account.BaseWithdraw | Domain/AccountBase.cs:16 | The base withdrawal rule and its effect; a refusal changes nothing |
| Accounts.Account.Withdraw | Domain/SavingsAccount.cs:7-13 | Each variant's own Withdraw rule and effect (savings cap, CD penalty or base rule); a refusal changes nothing, and the invariant is kept |
| Accounts.Account.ProcessPayment | Domain/AccountBase.cs:19 | Behaves exactly like Withdraw of the amount; the payment date plays no part |
| Accounts.Account.AdjustBalance | Services/InterestStrategies.cs:10-12 | The strategies' direct write of the balance plus one appended entry, with no guard at all |
| Accounts.Account.ApplyInterest | Domain/SavingsAccount.cs:14 | The attached strategy's posting and then the savings counter reset, as AfterInterest gives them; the invariant is kept |
| Loans.AnnualRateOf | Domain/RateCatalog.cs:10-12 | Each loan variant's catalog rate is positive |
| Loans.ZeroRateInstallment | Domain/LoanBase.cs:17 | With a zero monthly rate the installment times the term equals the principal; a zero term has no installment, since the division throws |
| Loans.AmortizationRows | Domain/LoanBase.cs:22-27 | The table has one row per month of the term, and every row's payment is its interest plus its principal portion |
| Loans.AmortizationLink | Domain/LoanBase.cs:25 | Each row after the first charges interest on what the previous row left, and leaves that less its own principal portion |
| Loans.AmortizationChain | Domain/LoanBase.cs:25 | The first row charges interest on the principal, and every later row on the balance the row before it left |
| Loans.AmortizationEndsAtZero | Domain/LoanBase.cs:25 | The last row leaves nothing owing, whatever installment is supplied |
| Loans.AmortizationRepaysPrincipal | Domain/LoanBase.cs:22-27 | In exact arithmetic the principal portions of the table add up to the amount borrowed |
| Loans.PaymentEffect | Domain/LoanBase.cs:28-35 | A payment sets the principal to the larger of 0 and principal minus amount, clears the missed counter and records the date. The status becomes PaidOff exactly when the principal is 0, else Current |
| Loans.PaymentInFull | Domain/LoanBase.cs:30-32 | A payment of at least the principal pays the loan off |
| Loans.MissedEffect | Domain/LoanBase.cs:36-41 | A PaidOff loan ignores a missed payment. Any other loan counts one more miss and becomes Defaulted from the third on, Delinquent before that |
| Loans.TransitionsKeepStanding | Domain/LoanBase.cs:28-41 | Payments and misses keep the missed counter and the status in agreement |
| Loans.Escalation | Domain/LoanBase.cs:28-41 | From a fresh loan, one and two misses give Delinquent and the third gives Defaulted; a partial payment then returns it to Current with the counter cleared |
| Loans.CatalogRatesAreNonZero | Domain/MortgageLoan.cs:3 | A mortgage's rate is 0.065, and no variant's monthly rate is zero, so the P/n branch of the installment never applies |
| Loans.Loan.constructor | Domain/LoanBase.cs:4-5 | Stores the customer, principal, term and currency unchanged and fixes the variant's rate; the loan starts Current with no misses and no payment date |
| Loans.Loan.ProcessPayment | Domain/LoanBase.cs:28-35 | Moves the loan to the state Paid describes and always returns true |
| Loans.Loan.RegisterMissedPayment | Domain/LoanBase.cs:36-41 | Moves the loan to the state Missed describes |
| Loans.Loan.GenerateAmortizationTable | Domain/LoanBase.cs:22-27 | The loop builds exactly the table Amortization describes for the loan's principal and monthly rate, with one row per month of the term, and none for a negative term. (A term of 0 gives no rows here, but `CalculateInstallment` throws for it before the loop is reached.) |
| Loans.EscalationScenario | Domain/LoanBase.cs:36-41 | Three misses default a fresh loan, and one payment brings it back to Current with the counter cleared |
| Factories.CreateAccount | Services/Factories.cs:5-14 | Selectors "1", "2" and "3" give a savings account, a checking account and a 12-month CD opened today. The new account gets that variant's interest strategy and carries the given customer and currency. An unknown selector gives null and draws no account number |
| Factories.CreateLoan | Services/Factories.cs:18-25 | Selectors "1", "2" and "3" give a personal, a mortgage and an auto loan, at the variant's catalog rate with the arguments stored; an unknown selector gives null |
| Schedules.PaymentSchedule.constructor | Domain/PaymentSchedule.cs:2-21 | Every field at its default: monthly and due a month from today, hence strictly later; active and pending, with no retries, retried daily, named "AutoPay", and with no day of month, end date, memo or last attempt |
| Schedules.PaymentSchedule.Init | Domain/PaymentSchedule.cs:5-20 | An object initializer: every field takes the given value |
| Schedules.PaymentSchedule.RecordRun | Services/SchedulerService.cs:28-69 | Writes only what a scheduler pass writes: active, next date, retry count, last result and last attempt |
| Dates.DaysInMonth | Services/SchedulerService.cs:65 | A month has 28 to 31 days, and 29 exactly for February of a leap year |
| Dates.CivilOfToDays | Services/BankService.cs:85 | A valid year, month and day survives the round trip through its day number |
| Dates.DayOfWeek | Services/SchedulerService.cs:13 | The weekday is numbered 0 (Sunday) to 6 (Saturday) |
| Dates.DayOfWeekAnchor | Services/SchedulerService.cs:13 | 1 January 2024 is a Monday, as in the real calendar |
| Dates.DayOfWeekStep | Services/SchedulerService.cs:13 | Each day is the weekday after the previous one, and the weekdays repeat every 7 days |
| Dates.AddMonths | Services/SchedulerService.cs:62 | Moves k calendar months on, keeping the day unless the target month is shorter, in which case the day is that month's last |
| Dates.WithDayOfMonth | Services/SchedulerService.cs:65-67 | A day in the same year and month whose day is the given one clamped to the month's length |
| Dates.AddOneMonthIsLater | Domain/PaymentSchedule.cs:9 | Adding one month always moves a date strictly forward |
| BankServices.IndexOfAccount | Services/BankService.cs:26 | The lookup finds the first account with the number, and None exactly when there is none |
| BankServices.IndexOfAccountAppend | Services/BankService.cs:9 | Adding an account leaves every earlier lookup as it was, and a number not yet used is found at the new end |
| BankServices.IndexOfLoan | Services/SchedulerService.cs:37 | The lookup finds the first loan with the id, and None exactly when there is none |
| BankServices.AccountsOfCustomer | Services/BankService.cs:21 | Every account returned belongs to the customer and is in the ledger, and every account of the customer is returned |
| BankServices.AccountsOfCustomerCount | Services/BankService.cs:21 | Each of the customer's accounts appears as many times as the ledger lists it, and no other account appears |
| BankServices.AccountsOfCustomerAppend | Services/BankService.cs:21 | The selection keeps ledger order: selecting from two lists in turn gives the first list's selection followed by the second's |
| BankServices.LoansOfCustomer | Services/BankService.cs:22 | Every loan returned belongs to the customer and is in the ledger, and every loan of the customer is returned |
| BankServices.LoansOfCustomerCount | Services/BankService.cs:22 | Each of the customer's loans appears as many times as the ledger lists it, and no other loan appears |
| BankServices.LoansOfCustomerAppend | Services/BankService.cs:22 | The selection keeps ledger order: selecting from two lists in turn gives the first list's selection followed by the second's |
| BankServices.SumBalancesUpdate | Services/BankService.cs:51-61 | Replacing one account's state changes the ledger's total by the change in that balance |
| BankServices.TransferGate | Services/BankService.cs:53-57 | The positions a transfer that passes its checks names are accounts of the ledger |
| BankServices.TransferRejections | Services/BankService.cs:51-61 | A failed transfer changes nothing. It fails for an amount outside (0, 20000] and for a missing account. A success needs an Active source, a destination that is not Closed, a source withdrawal that goes through, and either one currency or two supported ones |
| BankServices.TransferMovesFunds | Services/BankService.cs:57-58 | A successful transfer between two accounts debits the source through its own Withdraw of the amount. The destination is credited the converted amount only if its Deposit accepts it, and no other account changes |
| BankServices.TransferConservesTotal | Services/BankService.cs:58 | Between two Active accounts of one currency, from a source that is not a CD in its term, a transfer keeps the ledger's total |
| BankServices.TransferToFrozenLosesFunds | Services/BankService.cs:58 | The Deposit result is ignored, so a transfer to a Frozen account succeeds, debits the source and credits nothing; the ledger's total drops by the amount |
| BankServices.TransferFromEarlyCd | Services/BankService.cs:58 | A CD source in its term loses the amount plus 2% while the destination gains only the amount |
| BankServices.TransferToSelf | Services/BankService.cs:54-58 | A transfer from a savings account to itself is not refused: it ends at the same balance but uses up a monthly slot |
| BankServices.QuickSchedule | Services/BankService.cs:71 | The short overload's schedule: due tomorrow, Daily exactly when the text equals "Daily" ignoring case, active, pending and well formed |
| BankServices.FirstDueDateContract | Services/BankService.cs:80-87 | Without a monthly day of month the start date is the first due date. With one, the day is clamped to the start month's length, and the date moves to the next month exactly when the clamped day is before today |
| BankServices.FirstDueDateKeepsClampedDay | Services/BankService.cs:83-86 | The clamp comes before the month is added: day 31 requested in February of a common year, once 28 February is past, gives 28 March rather than 31 March |
| BankServices.ComputeFirstDueDate | Services/BankService.cs:80-87 | The statements of the full overload compute the first due date FirstDueDate describes |
| BankServices.ScheduleName | Services/BankService.cs:100 | A schedule's name is never blank. A non-blank given name is kept; any other result is "AutoPay" |
| BankServices.FullSchedule | Services/BankService.cs:88-102 | The full overload's schedule: max retries at least 0, retry spacing at least 1, first due on FirstDueDate, active and pending with no retries done |
| BankServices.SeedTransfer | Program.cs:199-206 | In the seed scenario, accounts holding 1200 and 300 transfer 100 successfully and end at 1100 and 400 |
| BankServices.BankService.constructor | Services/BankService.cs:8-11 | The ledger starts with no customers, accounts, loans or schedules |
| BankServices.BankService.SetStatusAt | Domain/AccountBase.cs:14 | Changes exactly the status of one account; every other account state is as before |
| BankServices.BankService.DepositAt | Domain/AccountBase.cs:15 | One account's Deposit seen from the ledger: only that account changes, as Deposit describes, and loans and schedules are untouched |
| BankServices.BankService.WithdrawAt | Domain/AccountBase.cs:16 | One account's Withdraw seen from the ledger: only that account changes, as its variant's rule describes |
| BankServices.BankService.ApplyInterestAt | Domain/AccountBase.cs:18 | One account's ApplyInterest seen from the ledger: only that account changes |
| BankServices.BankService.PayLoanAt | Services/SchedulerService.cs:57 | One loan's ProcessPayment seen from the ledger: only that loan changes, and accounts and schedules are untouched |
| BankServices.BankService.MissLoanAt | Services/SchedulerService.cs:52 | One loan's RegisterMissedPayment seen from the ledger: only that loan changes |
| BankServices.BankService.RecordRunAt | Services/SchedulerService.cs:28-69 | One schedule's run-written fields are updated; accounts, loans and the other schedules are untouched |
| BankServices.BankService.AddSchedule | Services/BankService.cs:103 | Appends one schedule and keeps the ledger consistent; the other lists are unchanged |
| BankServices.BankService.AddAccount | Services/BankService.cs:9 | Appends one account to the public list; the other lists are unchanged |
| BankServices.BankService.AddLoan | Services/BankService.cs:10 | Appends one loan to the public list; the other lists are unchanged |
| BankServices.BankService.CreateCustomer | Services/BankService.cs:13-19 | Returns a customer with the next customer id and the given details, appended to the customer list; only the customer counter moves |
| BankServices.BankService.SetAccountStatus | Services/BankService.cs:24-30 | Returns false and changes nothing for an unknown number. Otherwise only the first account with that number takes the status |
| BankServices.BankService.FreezeAccount | Services/BankService.cs:31 | Sets the account Frozen, or returns false for an unknown number |
| BankServices.BankService.UnfreezeAccount | Services/BankService.cs:32 | Sets the account Active, which also reopens a Closed account, or returns false for an unknown number |
| BankServices.BankService.Deposit | Services/BankService.cs:34-40 | Returns false for an unknown number; otherwise it is exactly that account's Deposit, result included |
| BankServices.BankService.Withdraw | Services/BankService.cs:42-49 | Refuses an amount outside (0, 5000] before the lookup and an unknown number, changing nothing. Otherwise it is exactly the account's own Withdraw, savings cap and CD penalty included |
| BankServices.BankService.DebitThenCreditAt | Services/BankService.cs:57-58 | Debits one account and, when that succeeds, offers the credit to the other account and ignores its answer, as DebitThenCredit describes |
| BankServices.BankService.Transfer | Services/BankService.cs:51-61 | The result and the new account states are those TransferEffect gives, whose properties the Transfer lemmas state |
| BankServices.BankService.ApplyInterestToAll | Services/BankService.cs:63 | Every account receives its own ApplyInterest exactly once, and nothing else changes |
| BankServices.BankService.CreateLoan | Services/BankService.cs:65-66 | The factory's loan for selectors "1", "2" and "3" (personal, mortgage, auto), or null for any other; the ledger's loan list is not changed |
| BankServices.BankService.SchedulePaymentQuick | Services/BankService.cs:68-75 | Returns false and adds nothing for an unknown source or an amount that is not positive. Otherwise it appends exactly one new schedule, the one QuickSchedule describes |
| BankServices.BankService.SchedulePayment | Services/BankService.cs:77-106 | Returns false and adds nothing for an unknown source or an amount that is not positive. Otherwise it appends exactly one new schedule, the one FullSchedule describes |
| Scheduler.YearStartIsNewYear | Services/SchedulerService.cs:8 | The first day of every year is a holiday-calendar 1 January |
| Scheduler.NewYearsFarApart | Services/SchedulerService.cs:8 | Two different 1 Januaries are at least a year apart |
| Scheduler.NoHolidaySoonAfter | Services/SchedulerService.cs:6-10 | The six days after a holiday are not holidays |
| Scheduler.NewYearIsJanuaryFirst | Services/SchedulerService.cs:8 | The 1 January test holds exactly for month 1, day 1 |
| Scheduler.ChristmasIsWeekBeforeNewYear | Services/SchedulerService.cs:9 | Every 25 December is a week before a 1 January |
| Scheduler.WeekBeforeNewYearIsChristmas | Services/SchedulerService.cs:9 | The day a week before a 1 January is 25 December |
| Scheduler.HolidaysAreCalendarDates | Services/SchedulerService.cs:6-13 | A day is a holiday exactly when it is 1 January or 25 December |
| Scheduler.BusinessDayWithinFour | Services/SchedulerService.cs:12-13 | Among any four consecutive days there is a business day |
| Scheduler.NextBusinessDayOf | Services/SchedulerService.cs:15-20 | The earliest business day on or after the date; it is at most three days later |
| Scheduler.NextBusinessDay | Services/SchedulerService.cs:15-20 | The day-by-day loop stops at exactly the earliest business day on or after the date |
| Scheduler.NextBusinessDayIdempotent | Services/SchedulerService.cs:15-20 | A business day is left alone, so adjusting twice is adjusting once |
| Scheduler.NextBusinessDayMonotone | Services/SchedulerService.cs:15-20 | A later date never adjusts to an earlier business day |
| Scheduler.NextDueContract | Services/SchedulerService.cs:62-68 | The next due date is strictly later. A daily schedule moves on one day. A monthly one moves into the next calendar month, on its day of month clamped to that month's length when it has one |
| Scheduler.Declined | Services/SchedulerService.cs:41-49 | A declined attempt keeps the schedule well formed and ends as Retrying or Exhausted |
| Scheduler.MissDestination | Services/SchedulerService.cs:52 | Registering the missed payment never touches an account |
| Scheduler.Decline | Services/SchedulerService.cs:40-55 | A declined attempt leaves every account as it was and ends as Retrying or Exhausted |
| Scheduler.Credit | Services/SchedulerService.cs:56-58 | Crediting keeps the ledger's shape. It fails exactly when the destination id names neither an account nor a loan. An account destination leaves the loans alone, and a loan destination leaves the accounts alone |
| Scheduler.Advanced | Services/SchedulerService.cs:59-69 | An executed schedule stays well formed |
| Scheduler.Settle | Services/SchedulerService.cs:56-69 | After the debit, the run is Executed with the schedule advanced, or NoDestination |
| Scheduler.Due | Services/SchedulerService.cs:40-69 | A due schedule is Executed only when its source could pay, and the schedule is then advanced |
| Scheduler.Collect | Services/SchedulerService.cs:35-69 | Past the date adjustment, a run keeps the ledger's shape and the schedule well formed |
| Scheduler.Execute | Services/SchedulerService.cs:27-71 | One pass of the loop keeps the ledger's shape and the schedule well formed |
| Scheduler.ExecuteKeepsSetup | Services/SchedulerService.cs:27-69 | A run writes only the active flag, next date, retry count, last result and last attempt; every other field is as it was |
| Scheduler.ExecuteInactiveOrExpired | Services/SchedulerService.cs:27-28 | An inactive schedule is skipped untouched. One past its end date is switched off with "Finalizado", and the ledger is unchanged |
| Scheduler.ExecuteAdjustsDate | Services/SchedulerService.cs:29-39 | An active, unexpired schedule always has its date moved to a business day. When that date is after the run date, nothing else happens. A missing source skips it with no retry bookkeeping |
| Scheduler.ExecuteRetries | Services/SchedulerService.cs:40-49 | A decline with retries left records the attempt, "Fondos insuficientes" and one more retry. The next date is exactly the first business day on or after the run date plus the retry spacing, so strictly after the run. The ledger is unchanged |
| Scheduler.ExecuteExhausted | Services/SchedulerService.cs:40-54 | A decline with no retries left records the run date as the attempt, "Fondos insuficientes" and one more retry. A destination loan gets a missed payment, and the due date stays where it was |
| Scheduler.CollectExhaustedOnlyWhen | Services/SchedulerService.cs:35-54 | Past the date adjustment, Exhausted means the schedule was due, its source exists but cannot pay, and no retries are left |
| Scheduler.DueExhaustedOnlyWhen | Services/SchedulerService.cs:40-54 | From a due schedule's source, Exhausted means the withdrawal failed with no retries left |
| Scheduler.ExhaustedOnlyWhen | Services/SchedulerService.cs:27-54 | A run ends Exhausted only in the situation ExecuteExhausted describes |
| Scheduler.ExhaustionRepeats | Services/SchedulerService.cs:45-54 | An exhausted schedule whose source still cannot pay is exhausted again by the next run on the same date. So a destination loan is charged another missed payment on every run |
| Scheduler.ExecuteLosesFundsWithoutDestination | Services/SchedulerService.cs:56-58 | When the source pays but the destination is neither an account nor a loan, the source is debited and nothing is credited. The schedule records "Destino no encontrado" without moving on, and the run is not counted |
| Scheduler.ExecuteAdvances | Services/SchedulerService.cs:59-69 | An executed payment clears the retries, records "OK" and the attempt, and moves the due date strictly past the date it paid for, onto a business day |
| Scheduler.SettleDeposits | Services/SchedulerService.cs:56 | Settling into an Active destination account deposits exactly the amount there and touches nothing else |
| Scheduler.DueDeposits | Services/SchedulerService.cs:40-56 | A successful withdrawal from one account settled into another Active account moves the amount unconverted |
| Scheduler.ExecuteCreditsUnconverted | Services/SchedulerService.cs:35-71 | A due payment between two different accounts, from a source that can pay to an Active destination, is executed. The source loses what its own Withdraw takes, the destination gains exactly the unconverted amount, and nothing else changes |
| Scheduler.SettlePaysLoan | Services/SchedulerService.cs:56-58 | Settling, when no account has the destination id but loan k does, pays loan k the amount on the run date, advances the schedule and leaves the accounts alone |
| Scheduler.DuePaysLoan | Services/SchedulerService.cs:40-58 | A successful withdrawal from account i settled into loan k changes account i as its Withdraw describes and loan k as Paid describes, and nothing else |
| Scheduler.ExecutePaysLoan | Services/SchedulerService.cs:27-58 | A due payment whose source can pay and whose destination is loan k is executed. The source loses what its own Withdraw takes, loan k is paid the amount on the run date, and no other account or loan changes |
| Scheduler.RunAll | Services/SchedulerService.cs:25-73 | The pass over all schedules keeps the ledger's shape and gives every schedule a well-formed new state and an outcome |
| Scheduler.CountExecutedBounded | Services/SchedulerService.cs:71-74 | The count of executed payments never exceeds the number of schedules, and is 0 when none executed |
| Scheduler.RunAllPrefix | Services/SchedulerService.cs:25 | Later schedules never change what earlier ones recorded: a run over the first m schedules is the start of the run over all of them |
| Scheduler.AdvanceDate | Services/SchedulerService.cs:62-69 | The statements compute the next due date shifted onto a business day |
| Scheduler.DeclinedStep | Services/SchedulerService.cs:41-49 | The retry bookkeeping statements compute what Declined describes |
| Scheduler.DeclineStep | Services/SchedulerService.cs:40-55 | The decline handling changes the ledger and the schedule fields exactly as Decline describes |
| Scheduler.CreditStep | Services/SchedulerService.cs:56-58 | Deposits into the destination account or pays the destination loan, as Credit describes. With neither, nothing changes |
| Scheduler.SettleStep | Services/SchedulerService.cs:56-69 | Crediting and advancing change the ledger and the schedule fields exactly as Settle describes |
| Scheduler.DueStep | Services/SchedulerService.cs:40-69 | The withdrawal and what follows it change the ledger exactly as Due describes |
| Scheduler.CollectStep | Services/SchedulerService.cs:35-69 | The due check, the source lookup and the rest change the ledger exactly as Collect describes |
| Scheduler.Step | Services/SchedulerService.cs:27-69 | The loop body changes the ledger and yields the schedule fields exactly as Execute describes |
| Scheduler.ExecuteSchedule | Services/SchedulerService.cs:26-72 | One pass updates the ledger and that schedule as Execute describes, and reports whether the schedule counts |
| Scheduler.ExecuteDuePayments | Services/SchedulerService.cs:22-75 | The ledger and schedules end as RunAll describes for the schedules in list order. The result counts the executed payments and is at most the number of schedules |
| Scheduler.ProgressStarts | Services/SchedulerService.cs:24 | Before the loop no schedule has run and the count is 0 |
| Scheduler.ProgressFinishes | Services/SchedulerService.cs:74 | After the loop, the ledger is what RunAll gives and the count is that of executed outcomes |
| Scheduler.RunSchedules | Services/SchedulerService.cs:25-73 | The loop over all schedules keeps the invariant that the first i have run as RunAll describes and the rest are untouched |
| Scheduler.RunNext | Services/SchedulerService.cs:26-72 | One pass extends the invariant from the first i schedules to the first i + 1 |
| Scheduler.RunAllExtends | Services/SchedulerService.cs:25-71 | Executing schedule i on what the first i left gives the run over the first i + 1. The count grows by one exactly when that schedule executed |
| Masking.MaskIdShape | Services/Masking.cs:4 | Blank or short input becomes "****". Otherwise the length and the last four characters are kept, and every earlier character becomes '*' |
| Masking.MaskIdIdempotent | Services/Masking.cs:4 | Masking a masked identifier changes nothing |
| Masking.MaskAccountShape | Services/Masking.cs:5 | Four characters or fewer are shown as they are. Otherwise the length and the last four characters are kept, and every earlier character becomes a bullet |
| Masking.MaskAccountIdempotent | Services/Masking.cs:5 | Masking a masked account number changes nothing |
| AuditLogger.MaskAgreesWithMaskId | Services/AuditLogger.cs:21 | The audit log redacts every value exactly as MaskId does |
| AuditLogger.MaskShape | Services/AuditLogger.cs:21 | Blank input and input shorter than four characters become "****". Otherwise the length and the last four characters are kept and the rest is '*' |

## Left out

- **Audit logging.** `AuditLogger.Log` and `AuditLogger.Init` append to a file under a lock, using the clock and the user name. Every log line the ledger and scheduler write (including the `SCHEDULE.*` events) is omitted. Only `Mask` is modelled.
- **Interaction code.** The Avalonia user interface, the console menus of `Program.cs` and the report writing (CSV, PDF, e-mail files) are I/O. The `ToCsv` methods format decimals by culture. The seed data of `Program.cs` appears only as the `SeedTransfer` scenario.
- **The clock.** `DateTime.Today` and `DateTime.Now` become the `today` and `asOf` parameters. The time of day is dropped, and so is the timestamp of a transaction.
- **Random identifiers.** Transaction, schedule and loan identifiers come from random GUIDs and are not modelled. The loan id is passed to the loan constructor.
- **Decimal rounding.** `decimal` is modelled as exact `real`, so its rounding at 28–29 significant digits is not captured. The round trips and sums that are proved hold in exact arithmetic only.
- **Date range.** The .NET date range (years 1 to 9999) is not enforced, so `AddMonths` and `AddDays` never throw in the model.
- **Loans.Loan.GenerateAmortizationTable:** takes the installment as a parameter. `CalculateInstallment` at a non-zero rate computes it in `double` with `Math.Pow` (floating point). Only the zero-rate branch, `ZeroRateInstallment`, is modelled.
- **Missing source files.** `PersonalLoan.cs`, `AutoLoan.cs` and `Customer.cs` are not part of this model. The personal and auto loan rates are taken from `RateCatalog`, and a customer is a record of the fields `CreateCustomer` fills in.
- **Schedules.PaymentSchedule.RecordRun:** the scheduler writes a schedule's fields one by one in its loop body. The model gathers the fields one pass leaves and writes them at once, because no other code observes the schedule in between.
- **Accounts.Account.constructor:** accepts only the interest strategy the factory attaches to the variant. The source's `init` property would also accept another variant's strategy, for which the account invariant need not hold.
- **BankServices.BankService.SchedulePayment:** requires a monthly day of month of at least 1. The source throws from the date constructor in that case (after the source and amount checks) instead of returning.
- **BankServices.BankService.AddAccount:** requires an account object not already listed. The public list would accept the same object twice, and the ledger's invariant assumes distinct objects.
- **BankServices.BankService.AddLoan:** requires a loan object not already listed. The public list would accept the same object twice, and the ledger's invariant assumes distinct objects.
- **Case folding and string length.** `EqualsIgnoreCase` folds only the ASCII letters a–z. .NET's `OrdinalIgnoreCase` also folds other letters, so two codes such as "é" and "É" count as one currency in `Money` addition and `Transfer` but as two in the model. The model's strings are sequences of Unicode scalar values, while .NET measures a string in UTF-16 code units; the masking functions count characters the model's way, so they differ for text outside the Basic Multilingual Plane.
- **Integer width.** C# `int` is 32 bits. The id counters, `RetriesDone` and `MissedPayments` are unbounded integers in the model, so their wrap-around after 2^31 − 1 increments is not captured.
- **Scheduler loop ordering.** The scheduler iterates the live schedule list. Nothing in the loop adds to it, and the model takes the list as fixed during a run.
