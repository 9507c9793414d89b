/**
 * Services/BankService.cs: the in-memory ledger that owns the customers,
 * accounts, loans and payment schedules, and applies the per-operation
 * ceilings and status gates in front of the account operations.
 */
module BankServices {
  import opened Wrappers
  import opened Domain
  import opened Dates
  import opened Text
  import opened CurrencyConverter
  import opened Ids
  import opened InterestStrategies
  import opened Accounts
  import opened Loans
  import opened Schedules
  import Factories

  const MaxWithdrawal: real := 5000.0
  const MaxTransfer: real := 20000.0

  /** A customer record; the class itself is not part of this model, its fields are those the ledger fills in. */
  datatype Customer = Customer(id: int, name: string, email: string, phone: string, governmentId: string)

  // ---------------------------------------------------------------------------
  // Lookups

  /** `FirstOrDefault(x => x.Number == number)`, as an index: the first account with that number, if any. */
  function IndexOfAccount(accs: seq<Account>, number: string): (r: Option<nat>)
    ensures r.Some? ==> r.value < |accs| && accs[r.value].number == number
    ensures r.Some? ==> forall k :: 0 <= k < r.value ==> accs[k].number != number
    ensures r.None? <==> forall k :: 0 <= k < |accs| ==> accs[k].number != number
  {
    if accs == [] then None
    else if accs[0].number == number then Some(0)
    else match IndexOfAccount(accs[1..], number)
      case None => None
      case Some(k) => Some(k + 1)
  }

  /** Appending an account leaves earlier lookups as they were and finds a new number at the end. */
  lemma {:induction false} IndexOfAccountAppend(accs: seq<Account>, a: Account, number: string)
    ensures IndexOfAccount(accs, number).Some? ==> IndexOfAccount(accs + [a], number) == IndexOfAccount(accs, number)
    ensures IndexOfAccount(accs, number).None? && a.number == number ==> IndexOfAccount(accs + [a], number) == Some(|accs|)
  {
    if accs != [] {
      IndexOfAccountAppend(accs[1..], a, number);
      assert (accs + [a])[1..] == accs[1..] + [a];
    }
  }

  /** `FirstOrDefault(l => l.LoanId == id)`, as an index: the first loan with that id, if any. */
  function IndexOfLoan(lns: seq<Loan>, id: string): (r: Option<nat>)
    ensures r.Some? ==> r.value < |lns| && lns[r.value].loanId == id
    ensures r.Some? ==> forall k :: 0 <= k < r.value ==> lns[k].loanId != id
    ensures r.None? <==> forall k :: 0 <= k < |lns| ==> lns[k].loanId != id
  {
    if lns == [] then None
    else if lns[0].loanId == id then Some(0)
    else match IndexOfLoan(lns[1..], id)
      case None => None
      case Some(k) => Some(k + 1)
  }

  /** GetAccountsByCustomer: the customer's accounts, in ledger order. */
  function AccountsOfCustomer(accs: seq<Account>, id: int): (r: seq<Account>)
    ensures forall k :: 0 <= k < |r| ==> r[k] in accs && r[k].customerId == id
    ensures forall k :: 0 <= k < |accs| && accs[k].customerId == id ==> accs[k] in r
    ensures |r| <= |accs|
  {
    if accs == [] then []
    else (if accs[0].customerId == id then [accs[0]] else []) + AccountsOfCustomer(accs[1..], id)
  }

  /** Each of the customer's accounts is returned as many times as the ledger holds it, and no other account is. */
  lemma {:induction false} AccountsOfCustomerCount(accs: seq<Account>, id: int, x: Account)
    ensures multiset(AccountsOfCustomer(accs, id))[x] == if x.customerId == id then multiset(accs)[x] else 0
  {
    if accs != [] {
      assert accs == [accs[0]] + accs[1..];
      AccountsOfCustomerCount(accs[1..], id, x);
    }
  }

  /** The selection keeps ledger order: selecting from two lists one after the other is selecting from each in turn. */
  lemma {:induction false} AccountsOfCustomerAppend(xs: seq<Account>, ys: seq<Account>, id: int)
    ensures AccountsOfCustomer(xs + ys, id) == AccountsOfCustomer(xs, id) + AccountsOfCustomer(ys, id)
  {
    if xs == [] {
      assert xs + ys == ys;
    } else {
      assert (xs + ys)[1..] == xs[1..] + ys;
      AccountsOfCustomerAppend(xs[1..], ys, id);
    }
  }

  /** GetLoansByCustomer: the customer's loans, in ledger order. */
  function LoansOfCustomer(lns: seq<Loan>, id: int): (r: seq<Loan>)
    ensures forall k :: 0 <= k < |r| ==> r[k] in lns && r[k].customerId == id
    ensures forall k :: 0 <= k < |lns| && lns[k].customerId == id ==> lns[k] in r
    ensures |r| <= |lns|
  {
    if lns == [] then []
    else (if lns[0].customerId == id then [lns[0]] else []) + LoansOfCustomer(lns[1..], id)
  }

  /** Each of the customer's loans is returned as many times as the ledger holds it, and no other loan is. */
  lemma {:induction false} LoansOfCustomerCount(lns: seq<Loan>, id: int, x: Loan)
    ensures multiset(LoansOfCustomer(lns, id))[x] == if x.customerId == id then multiset(lns)[x] else 0
  {
    if lns != [] {
      assert lns == [lns[0]] + lns[1..];
      LoansOfCustomerCount(lns[1..], id, x);
    }
  }

  /** The selection keeps ledger order: selecting from two lists one after the other is selecting from each in turn. */
  lemma {:induction false} LoansOfCustomerAppend(xs: seq<Loan>, ys: seq<Loan>, id: int)
    ensures LoansOfCustomer(xs + ys, id) == LoansOfCustomer(xs, id) + LoansOfCustomer(ys, id)
  {
    if xs == [] {
      assert xs + ys == ys;
    } else {
      assert (xs + ys)[1..] == xs[1..] + ys;
      LoansOfCustomerAppend(xs[1..], ys, id);
    }
  }

  function AccountStatesOf(accs: seq<Account>): (r: seq<AccountState>)
    reads accs
    ensures |r| == |accs|
    ensures forall k :: 0 <= k < |accs| ==> r[k] == accs[k].State()
  {
    if accs == [] then [] else [accs[0].State()] + AccountStatesOf(accs[1..])
  }

  function LoanStatesOf(lns: seq<Loan>): (r: seq<LoanState>)
    reads lns
    ensures |r| == |lns|
    ensures forall k :: 0 <= k < |lns| ==> r[k] == lns[k].State()
  {
    if lns == [] then [] else [lns[0].State()] + LoanStatesOf(lns[1..])
  }

  function ScheduleStatesOf(ps: seq<PaymentSchedule>): (r: seq<ScheduleState>)
    reads ps
    ensures |r| == |ps|
    ensures forall k :: 0 <= k < |ps| ==> r[k] == ps[k].State()
  {
    if ps == [] then [] else [ps[0].State()] + ScheduleStatesOf(ps[1..])
  }

  function SumBalances(states: seq<AccountState>): real {
    if states == [] then 0.0 else states[0].balance + SumBalances(states[1..])
  }

  /** Replacing one account's state changes the ledger's total by the change in that balance. */
  lemma {:induction false} SumBalancesUpdate(states: seq<AccountState>, i: nat, s: AccountState)
    requires i < |states|
    ensures SumBalances(states[i := s]) == SumBalances(states) - states[i].balance + s.balance
  {
    if i > 0 {
      SumBalancesUpdate(states[1..], i - 1, s);
      assert states[i := s][1..] == states[1..][i - 1 := s];
    }
  }

  /** Untouched loans keep their states and their validity. */
  twostate lemma LoansKept(lns: seq<Loan>)
    requires forall m :: 0 <= m < |lns| ==> unchanged(lns[m])
    ensures LoanStatesOf(lns) == old(LoanStatesOf(lns))
    ensures forall m :: 0 <= m < |lns| ==> lns[m].Valid() == old(lns[m].Valid())
  {
    var now, was := LoanStatesOf(lns), old(LoanStatesOf(lns));
    forall m | 0 <= m < |lns|
      ensures now[m] == was[m]
    {
      assert old(lns[m].State()) == lns[m].State();
    }
  }

  /** Untouched schedules keep their states and their validity. */
  twostate lemma SchedulesKept(ps: seq<PaymentSchedule>)
    requires forall m :: 0 <= m < |ps| ==> unchanged(ps[m])
    ensures ScheduleStatesOf(ps) == old(ScheduleStatesOf(ps))
    ensures forall m :: 0 <= m < |ps| ==> ps[m].Valid() == old(ps[m].Valid())
  {
    var now, was := ScheduleStatesOf(ps), old(ScheduleStatesOf(ps));
    forall m | 0 <= m < |ps|
      ensures now[m] == was[m]
    {
      assert old(ps[m].State()) == ps[m].State();
    }
  }

  /** Untouched accounts keep their states and their validity. */
  twostate lemma AccountsKept(accs: seq<Account>)
    requires forall m :: 0 <= m < |accs| ==> unchanged(accs[m])
    ensures AccountStatesOf(accs) == old(AccountStatesOf(accs))
    ensures forall m :: 0 <= m < |accs| ==> accs[m].Valid() == old(accs[m].Valid())
  {
    var now, was := AccountStatesOf(accs), old(AccountStatesOf(accs));
    forall m | 0 <= m < |accs|
      ensures now[m] == was[m]
    {
      assert old(accs[m].State()) == accs[m].State();
    }
  }

  // ---------------------------------------------------------------------------
  // The effect of the ledger's money operations on the account states

  /**
   * The checks Transfer makes before touching any account: the ceiling, both
   * lookups, the statuses, and the conversion when the currencies differ
   * (compared ignoring case). Gives the two positions and the amount to credit.
   */
  function TransferGate(accs: seq<Account>, states: seq<AccountState>, from: string, to: string, amount: real): (r: Option<(nat, nat, real)>)
    requires |states| == |accs|
    ensures r.Some? ==> r.value.0 < |accs| && r.value.1 < |accs|
  {
    if amount <= 0.0 || amount > MaxTransfer then None
    else
      var ia, ib := IndexOfAccount(accs, from), IndexOfAccount(accs, to);
      if ia.None? || ib.None? then None
      else
        var i, j := ia.value, ib.value;
        if states[i].status != Active || states[j].status == Closed then None
        else if EqualsIgnoreCase(accs[i].currency, accs[j].currency) then Some((i, j, amount))
        else match Convert(amount, accs[i].currency, accs[j].currency)
          case None => None
          case Some(c) => Some((i, j, c))
  }

  /** Debit position `i` through its Withdraw and, when that succeeds, offer `credit` to position `j`'s Deposit. */
  function DebitThenCredit(kind: AccountKind, states: seq<AccountState>, i: nat, j: nat, amount: real, credit: real, today: Date): (bool, seq<AccountState>)
    requires i < |states| && j < |states|
  {
    if !CanWithdraw(kind, states[i], amount, today) then (false, states)
    else
      var debited := states[i := AfterWithdraw(kind, states[i], amount, today)];
      (true, if CanDeposit(debited[j], credit) then debited[j := AfterDeposit(debited[j], credit)] else debited)
  }

  /** BankService.Transfer: whether it succeeds and the account states it leaves. */
  function TransferEffect(accs: seq<Account>, states: seq<AccountState>, from: string, to: string, amount: real, today: Date): (bool, seq<AccountState>)
    requires |states| == |accs|
  {
    match TransferGate(accs, states, from, to, amount)
    case None => (false, states)
    case Some((i, j, credit)) => DebitThenCredit(accs[i].kind, states, i, j, amount, credit, today)
  }

  /**
   * Transfer refuses, changing nothing, an amount outside (0, 20000], a
   * missing account, a source that is not Active, a Closed destination, an
   * unsupported currency pair, and a source withdrawal that fails.
   */
  lemma TransferRejections(accs: seq<Account>, states: seq<AccountState>, from: string, to: string, amount: real, today: Date)
    requires |states| == |accs|
    ensures var (ok, states') := TransferEffect(accs, states, from, to, amount, today);
      && (!ok ==> states' == states)
      && (amount <= 0.0 || amount > 20000.0 ==> !ok)
      && (IndexOfAccount(accs, from).None? || IndexOfAccount(accs, to).None? ==> !ok)
      && (ok ==> var i, j := IndexOfAccount(accs, from).value, IndexOfAccount(accs, to).value;
            && states[i].status == Active && states[j].status != Closed
            && CanWithdraw(accs[i].kind, states[i], amount, today)
            && (EqualsIgnoreCase(accs[i].currency, accs[j].currency) || (Supported(accs[i].currency) && Supported(accs[j].currency))))
  {
  }

  /**
   * A successful transfer between two different accounts debits the source
   * through its own Withdraw and credits the destination the converted amount
   * when it accepts deposits; no other account changes.
   */
  lemma TransferMovesFunds(accs: seq<Account>, states: seq<AccountState>, from: string, to: string, amount: real, today: Date)
    requires |states| == |accs|
    requires TransferEffect(accs, states, from, to, amount, today).0
    ensures var states' := TransferEffect(accs, states, from, to, amount, today).1;
      var i, j := IndexOfAccount(accs, from).value, IndexOfAccount(accs, to).value;
      var credit := if EqualsIgnoreCase(accs[i].currency, accs[j].currency) then amount else Convert(amount, accs[i].currency, accs[j].currency).value;
      && |states'| == |states|
      && (i != j ==> states'[i] == AfterWithdraw(accs[i].kind, states[i], amount, today))
      && (i != j ==> states'[j] == if CanDeposit(states[j], credit) then AfterDeposit(states[j], credit) else states[j])
      && (forall k :: 0 <= k < |states| && k != i && k != j ==> states'[k] == states[k])
  {
  }

  /**
   * Between two Active accounts of the same currency, with a source that is
   * not a CD in its term, a transfer keeps the ledger's total balance.
   */
  lemma TransferConservesTotal(accs: seq<Account>, states: seq<AccountState>, from: string, to: string, amount: real, today: Date)
    requires |states| == |accs|
    requires TransferEffect(accs, states, from, to, amount, today).0
    requires var i, j := IndexOfAccount(accs, from).value, IndexOfAccount(accs, to).value;
      EqualsIgnoreCase(accs[i].currency, accs[j].currency) && states[j].status == Active && !IsEarly(accs[i].kind, today)
    ensures SumBalances(TransferEffect(accs, states, from, to, amount, today).1) == SumBalances(states)
  {
    var i, j := IndexOfAccount(accs, from).value, IndexOfAccount(accs, to).value;
    var debited := states[i := AfterWithdraw(accs[i].kind, states[i], amount, today)];
    SumBalancesUpdate(states, i, debited[i]);
    SumBalancesUpdate(debited, j, AfterDeposit(debited[j], amount));
  }

  /**
   * The destination's Deposit result is ignored: a transfer to a Frozen
   * account succeeds, debits the source and credits nothing, so the ledger's
   * total drops by the amount.
   */
  lemma TransferToFrozenLosesFunds(accs: seq<Account>, states: seq<AccountState>, from: string, to: string, amount: real, today: Date)
    requires |states| == |accs|
    requires IndexOfAccount(accs, from).Some? && IndexOfAccount(accs, to).Some?
    requires var i, j := IndexOfAccount(accs, from).value, IndexOfAccount(accs, to).value;
      && i != j && 0.0 < amount <= 20000.0 && EqualsIgnoreCase(accs[i].currency, accs[j].currency)
      && states[j].status == Frozen && CanWithdraw(accs[i].kind, states[i], amount, today) && !IsEarly(accs[i].kind, today)
    ensures TransferEffect(accs, states, from, to, amount, today).0
    ensures SumBalances(TransferEffect(accs, states, from, to, amount, today).1) == SumBalances(states) - amount
  {
    var i := IndexOfAccount(accs, from).value;
    SumBalancesUpdate(states, i, AfterWithdraw(accs[i].kind, states[i], amount, today));
  }

  /**
   * A CD source in its term pays the 2% penalty on top of the amount while the
   * destination receives only the amount.
   */
  lemma TransferFromEarlyCd(accs: seq<Account>, states: seq<AccountState>, from: string, to: string, amount: real, today: Date)
    requires |states| == |accs|
    requires TransferEffect(accs, states, from, to, amount, today).0
    requires var i, j := IndexOfAccount(accs, from).value, IndexOfAccount(accs, to).value;
      i != j && IsEarly(accs[i].kind, today) && EqualsIgnoreCase(accs[i].currency, accs[j].currency) && states[j].status == Active
    ensures var states' := TransferEffect(accs, states, from, to, amount, today).1;
      var i, j := IndexOfAccount(accs, from).value, IndexOfAccount(accs, to).value;
      states'[i].balance == states[i].balance - amount * 1.02 && states'[j].balance == states[j].balance + amount
  {
  }

  /** A transfer from an account to itself is not refused: a savings account uses a monthly slot and ends where it began. */
  lemma TransferToSelf(accs: seq<Account>, states: seq<AccountState>, number: string, amount: real, today: Date)
    requires |states| == |accs|
    requires IndexOfAccount(accs, number).Some?
    requires var i := IndexOfAccount(accs, number).value;
      accs[i].kind == Savings && states[i].status == Active && 0.0 < amount <= states[i].balance && amount <= 20000.0
      && states[i].withdrawalsThisMonth < 6
    ensures TransferEffect(accs, states, number, number, amount, today).0
    ensures var i := IndexOfAccount(accs, number).value;
      var s' := TransferEffect(accs, states, number, number, amount, today).1[i];
      s'.balance == states[i].balance && s'.withdrawalsThisMonth == states[i].withdrawalsThisMonth + 1
  {
    var i := IndexOfAccount(accs, number).value;
    EqualsIgnoreCaseIsEquivalence(accs[i].currency, accs[i].currency, accs[i].currency);
  }

  // ---------------------------------------------------------------------------
  // New schedules

  /** The schedule the short SchedulePayment overload creates: due tomorrow, daily exactly when the text says "Daily". */
  function QuickSchedule(source: string, destination: string, amount: real, periodicity: string, today: Date): (s: ScheduleState)
    ensures WellFormed(s) && s.active && s.retriesDone == 0 && s.lastResult == PendingResult
    ensures s.nextDate == today + 1 && s.dayOfMonth.None? && s.endDate.None?
    ensures s.periodicity == Daily <==> EqualsIgnoreCase(periodicity, "Daily")
    ensures s.sourceAccount == source && s.destinationId == destination && s.amount == amount
  {
    ScheduleState(source, destination, amount,
      if EqualsIgnoreCase(periodicity, "Daily") then Daily else Monthly,
      AddDays(today, 1), DefaultName, None, None, today, None, true, 0, 1, 0, PendingResult, None)
  }

  /**
   * The first due date of the full SchedulePayment overload: the start date,
   * or for a monthly schedule with a day of month, that day (clamped to the
   * month's length) in the start date's month, moved a month on when it is
   * before today.
   */
  function FirstDueDate(startDate: Date, periodicity: Periodicity, dayOfMonth: Option<int>, today: Date): Date
    requires periodicity == Monthly && dayOfMonth.Some? ==> dayOfMonth.value >= 1
  {
    if dayOfMonth.Some? && periodicity == Monthly then
      var clamped := WithDayOfMonth(startDate, dayOfMonth.value);
      if clamped < today then AddMonths(clamped, 1) else clamped
    else startDate
  }

  /**
   * Without a monthly day of month the start date is the first due date, even
   * one already past; with one, the first due date falls in the start month or
   * the month after, and is in the start month exactly when the clamped day
   * there is not before today.
   */
  lemma FirstDueDateContract(startDate: Date, periodicity: Periodicity, dayOfMonth: Option<int>, today: Date)
    requires periodicity == Monthly && dayOfMonth.Some? ==> dayOfMonth.value >= 1
    ensures !(dayOfMonth.Some? && periodicity == Monthly) ==> FirstDueDate(startDate, periodicity, dayOfMonth, today) == startDate
    ensures dayOfMonth.Some? && periodicity == Monthly ==>
      var r := FirstDueDate(startDate, periodicity, dayOfMonth, today);
      var clamped := WithDayOfMonth(startDate, dayOfMonth.value);
      && Day(clamped) == Min(dayOfMonth.value, DaysInMonth(Year(startDate), Month(startDate)))
      && (clamped >= today ==> r == clamped)
      && (clamped < today ==> r > clamped && 12 * Year(r) + Month(r) == 12 * Year(startDate) + Month(startDate) + 1)
  {
    if dayOfMonth.Some? && periodicity == Monthly {
      var clamped := WithDayOfMonth(startDate, dayOfMonth.value);
      AddOneMonthIsLater(clamped);
    }
  }

  /**
   * The clamp is applied before the month is added: day 31 in February of a
   * common year becomes the 28th, and when that is past the first due date is
   * 28 March, not 31 March.
   */
  lemma FirstDueDateKeepsClampedDay(year: int, startDay: int, today: Date)
    requires !IsLeapYear(year) && 1 <= startDay <= 28
    requires ToDays(CivilDate(year, 2, 28)) < today
    ensures FirstDueDate(ToDays(CivilDate(year, 2, startDay)), Monthly, Some(31), today) == ToDays(CivilDate(year, 3, 28))
  {
    FebruaryClampsTo28(year, startDay);
    MonthAfterFebruary28(year);
  }

  /** Day 31 of February in a common year is clamped to the 28th. */
  lemma FebruaryClampsTo28(year: int, startDay: int)
    requires !IsLeapYear(year) && 1 <= startDay <= 28
    ensures WithDayOfMonth(ToDays(CivilDate(year, 2, startDay)), 31) == ToDays(CivilDate(year, 2, 28))
  {
    CivilOfToDays(CivilDate(year, 2, startDay));
    var clamped := WithDayOfMonth(ToDays(CivilDate(year, 2, startDay)), 31);
    assert Civil(clamped) == CivilDate(year, 2, 28);
  }

  /** A month after 28 February comes 28 March. */
  lemma MonthAfterFebruary28(year: int)
    ensures AddMonths(ToDays(CivilDate(year, 2, 28)), 1) == ToDays(CivilDate(year, 3, 28))
  {
    CivilOfToDays(CivilDate(year, 2, 28));
    var r := AddMonths(ToDays(CivilDate(year, 2, 28)), 1);
    assert Civil(r) == CivilDate(year, 3, 28);
  }

  /** The first-due-date computation of the full SchedulePayment, clamping the day to the month's length itself. */
  method ComputeFirstDueDate(startDate: Date, periodicity: Periodicity, dayOfMonth: Option<int>, today: Date) returns (next: Date)
    requires periodicity == Monthly && dayOfMonth.Some? ==> dayOfMonth.value >= 1
    ensures next == FirstDueDate(startDate, periodicity, dayOfMonth, today)
  {
    next := startDate;
    if dayOfMonth.Some? && periodicity == Monthly {
      var days := DaysInMonth(Year(next), Month(next));
      var day := Min(dayOfMonth.value, days);
      next := WithDayOfMonth(next, day);
      if next < today {
        next := AddMonths(next, 1);
      }
    }
  }

  /** The display name: the given one unless it is missing or blank. */
  function ScheduleName(name: Option<string>): (r: string)
    ensures !IsBlank(r)
    ensures r == DefaultName || name == Some(r)
    ensures name.Some? && !IsBlank(name.value) ==> r == name.value
  {
    if name.None? || IsBlank(name.value) then assert !IsWhiteSpace(DefaultName[0]); DefaultName else name.value
  }

  /** The schedule the full SchedulePayment overload creates. */
  function FullSchedule(source: string, destination: string, amount: real, periodicity: Periodicity, dayOfMonth: Option<int>,
                        startDate: Date, endDate: Option<Date>, maxRetries: int, retryEveryDays: int,
                        name: Option<string>, memo: Option<string>, today: Date): (s: ScheduleState)
    requires periodicity == Monthly && dayOfMonth.Some? ==> dayOfMonth.value >= 1
    ensures WellFormed(s)
    ensures s.maxRetries == Max(0, maxRetries) && s.retryEveryDays == Max(1, retryEveryDays)
    ensures s.nextDate == FirstDueDate(startDate, periodicity, dayOfMonth, today)
    ensures s.active && s.retriesDone == 0 && s.lastResult == PendingResult && s.lastAttempt.None?
  {
    ScheduleState(source, destination, amount, periodicity, FirstDueDate(startDate, periodicity, dayOfMonth, today),
      ScheduleName(name), memo, dayOfMonth, startDate, endDate, true, Max(0, maxRetries), Max(1, retryEveryDays), 0,
      PendingResult, None)
  }

  /** The object initializer of the full SchedulePayment, with the first due date worked out step by step. */
  method NewSchedule(source: string, destination: string, amount: real, periodicity: Periodicity, dayOfMonth: Option<int>,
                     startDate: Date, endDate: Option<Date>, maxRetries: int, retryEveryDays: int,
                     name: Option<string>, memo: Option<string>, today: Date) returns (p: PaymentSchedule)
    requires periodicity == Monthly && dayOfMonth.Some? ==> dayOfMonth.value >= 1
    ensures fresh(p) && p.Valid()
    ensures p.State() == FullSchedule(source, destination, amount, periodicity, dayOfMonth, startDate, endDate, maxRetries, retryEveryDays, name, memo, today)
  {
    var next := ComputeFirstDueDate(startDate, periodicity, dayOfMonth, today);
    p := new PaymentSchedule.Init(ScheduleState(source, destination, amount, periodicity, next,
      ScheduleName(name), memo, dayOfMonth, startDate, endDate, true, Max(0, maxRetries), Max(1, retryEveryDays), 0,
      PendingResult, None));
  }

  // ---------------------------------------------------------------------------
  // The ledger object

  class BankService {
    var customers: seq<Customer>
    var accounts: seq<Account>
    var loans: seq<Loan>
    var schedules: seq<PaymentSchedule>

    function AccountStates(): seq<AccountState>
      reads this, accounts
    {
      AccountStatesOf(accounts)
    }

    function LoanStates(): seq<LoanState>
      reads this, loans
    {
      LoanStatesOf(loans)
    }

    function ScheduleStates(): seq<ScheduleState>
      reads this, schedules
    {
      ScheduleStatesOf(schedules)
    }

    /** Every account, loan and schedule is consistent, and no object is listed twice. */
    ghost predicate Valid()
      reads this, accounts, loans, schedules
    {
      AccountsValid() && LoansValid() && SchedulesValid()
    }

    ghost predicate AccountsValid()
      reads this, accounts
    {
      && (forall k :: 0 <= k < |accounts| ==> accounts[k].Valid())
      && (forall k, l :: 0 <= k < l < |accounts| ==> accounts[k] != accounts[l])
    }

    ghost predicate LoansValid()
      reads this, loans
    {
      && (forall k :: 0 <= k < |loans| ==> loans[k].Valid())
      && (forall k, l :: 0 <= k < l < |loans| ==> loans[k] != loans[l])
    }

    ghost predicate SchedulesValid()
      reads this, schedules
    {
      && (forall k :: 0 <= k < |schedules| ==> schedules[k].Valid())
      && (forall k, l :: 0 <= k < l < |schedules| ==> schedules[k] != schedules[l])
    }

    constructor ()
      ensures Valid()
      ensures customers == [] && accounts == [] && loans == [] && schedules == []
    {
      customers := [];
      accounts := [];
      loans := [];
      schedules := [];
    }

    /**
     * What the ledger can tell once only its `i`-th account changed, and that
     * account is still valid: it is valid, and only that account's state moved.
     */
    twostate lemma AccountReplaced(i: nat)
      requires old(Valid()) && unchanged(this) && i < |accounts|
      requires forall k :: 0 <= k < |accounts| && k != i ==> unchanged(accounts[k])
      requires forall m :: 0 <= m < |loans| ==> unchanged(loans[m])
      requires forall m :: 0 <= m < |schedules| ==> unchanged(schedules[m])
      requires accounts[i].Valid()
      ensures Valid()
      ensures AccountStates() == old(AccountStates())[i := accounts[i].State()]
      ensures LoanStates() == old(LoanStates()) && ScheduleStates() == old(ScheduleStates())
    {
      AccountStatesReplaced(i);
      LoansKept(loans);
      SchedulesKept(schedules);
      AccountsStillValid(i);
    }

    /** Replacing one loan in place changes the loan states in that position alone. */
    twostate lemma LoanStatesReplaced(k: nat)
      requires unchanged(this) && k < |loans|
      requires forall m :: 0 <= m < |loans| && m != k ==> unchanged(loans[m])
      ensures LoanStates() == old(LoanStates())[k := loans[k].State()]
    {
      var now, was := LoanStates(), old(LoanStates())[k := loans[k].State()];
      forall m | 0 <= m < |loans|
        ensures now[m] == was[m]
      {
        if m != k {
          assert old(loans[m].State()) == loans[m].State();
        }
      }
    }

    /** Replacing one valid loan in place keeps the loans valid. */
    twostate lemma LoansStillValid(k: nat)
      requires old(LoansValid()) && unchanged(this) && k < |loans|
      requires forall m :: 0 <= m < |loans| && m != k ==> unchanged(loans[m])
      requires loans[k].Valid()
      ensures LoansValid()
    {
      forall m | 0 <= m < |loans|
        ensures loans[m].Valid()
      {
        if m != k {
          assert old(loans[m].Valid());
        }
      }
    }

    /** Replacing one account in place changes the account states in that position alone. */
    twostate lemma AccountStatesReplaced(i: nat)
      requires unchanged(this) && i < |accounts|
      requires forall k :: 0 <= k < |accounts| && k != i ==> unchanged(accounts[k])
      ensures AccountStates() == old(AccountStates())[i := accounts[i].State()]
    {
      var now, was := AccountStates(), old(AccountStates())[i := accounts[i].State()];
      forall k | 0 <= k < |accounts|
        ensures now[k] == was[k]
      {
        if k != i {
          assert old(accounts[k].State()) == accounts[k].State();
        }
      }
    }

    /** Replacing one valid account in place keeps the accounts valid. */
    twostate lemma AccountsStillValid(i: nat)
      requires old(AccountsValid()) && unchanged(this) && i < |accounts|
      requires forall k :: 0 <= k < |accounts| && k != i ==> unchanged(accounts[k])
      requires accounts[i].Valid()
      ensures AccountsValid()
    {
      forall k | 0 <= k < |accounts|
        ensures accounts[k].Valid()
      {
        if k != i {
          assert old(accounts[k].Valid());
        }
      }
    }

    /**
     * What the ledger can tell once only its `k`-th loan changed, and that
     * loan is still valid: it is valid, and only that loan's state moved.
     */
    twostate lemma LoanReplaced(k: nat)
      requires old(Valid()) && unchanged(this) && k < |loans|
      requires forall m :: 0 <= m < |loans| && m != k ==> unchanged(loans[m])
      requires forall m :: 0 <= m < |accounts| ==> unchanged(accounts[m])
      requires forall m :: 0 <= m < |schedules| ==> unchanged(schedules[m])
      requires loans[k].Valid()
      ensures Valid()
      ensures LoanStates() == old(LoanStates())[k := loans[k].State()]
      ensures AccountStates() == old(AccountStates()) && ScheduleStates() == old(ScheduleStates())
    {
      LoanStatesReplaced(k);
      AccountsKept(accounts);
      SchedulesKept(schedules);
      LoansStillValid(k);
    }

    /** The `i`-th account's SetStatus, seen from the ledger. */
    method SetStatusAt(i: nat, status: AccountStatus)
      requires Valid() && i < |accounts|
      modifies accounts[i]
      ensures Valid()
      ensures AccountStates() == old(AccountStates())[i := old(AccountStates())[i].(status := status)]
    {
      accounts[i].SetStatus(status);
    }

    /** The `i`-th account's Deposit, seen from the ledger. */
    method DepositAt(i: nat, amount: real) returns (ok: bool)
      requires Valid() && i < |accounts|
      modifies accounts[i]
      ensures Valid()
      ensures ok == CanDeposit(old(AccountStates())[i], amount)
      ensures AccountStates() == if ok then old(AccountStates())[i := AfterDeposit(old(AccountStates())[i], amount)] else old(AccountStates())
      ensures LoanStates() == old(LoanStates()) && ScheduleStates() == old(ScheduleStates())
    {
      assert forall k :: 0 <= k < |accounts| && k != i ==> accounts[k] != accounts[i];
      ok := accounts[i].Deposit(amount);
      AccountReplaced(i);
    }

    /** The `i`-th account's Withdraw, seen from the ledger. */
    method WithdrawAt(i: nat, amount: real, today: Date) returns (ok: bool)
      requires Valid() && i < |accounts|
      modifies accounts[i]
      ensures Valid()
      ensures ok == CanWithdraw(accounts[i].kind, old(AccountStates())[i], amount, today)
      ensures AccountStates() == if ok then old(AccountStates())[i := AfterWithdraw(accounts[i].kind, old(AccountStates())[i], amount, today)] else old(AccountStates())
      ensures LoanStates() == old(LoanStates()) && ScheduleStates() == old(ScheduleStates())
    {
      assert forall k :: 0 <= k < |accounts| && k != i ==> accounts[k] != accounts[i];
      ok := accounts[i].Withdraw(amount, today);
      AccountReplaced(i);
    }

    /** The `i`-th account's ApplyInterest, seen from the ledger. */
    method ApplyInterestAt(i: nat, date: Date, monthly: bool)
      requires Valid() && i < |accounts|
      modifies accounts[i]
      ensures Valid()
      ensures AccountStates() == old(AccountStates())[i := AfterInterest(accounts[i].kind, accounts[i].interestStrategy, old(AccountStates())[i], date, monthly)]
    {
      accounts[i].ApplyInterest(date, monthly);
    }

    /** The `k`-th loan's ProcessPayment, seen from the ledger. */
    method PayLoanAt(k: nat, amount: real, date: Date)
      requires Valid() && k < |loans|
      modifies loans[k]
      ensures Valid()
      ensures LoanStates() == old(LoanStates())[k := Paid(old(LoanStates())[k], amount, date)]
      ensures AccountStates() == old(AccountStates()) && ScheduleStates() == old(ScheduleStates())
    {
      assert forall m :: 0 <= m < |loans| && m != k ==> loans[m] != loans[k];
      var _ := loans[k].ProcessPayment(amount, date);
      LoanReplaced(k);
    }

    /** The `k`-th loan's RegisterMissedPayment, seen from the ledger. */
    method MissLoanAt(k: nat)
      requires Valid() && k < |loans|
      modifies loans[k]
      ensures Valid()
      ensures LoanStates() == old(LoanStates())[k := Missed(old(LoanStates())[k])]
      ensures AccountStates() == old(AccountStates()) && ScheduleStates() == old(ScheduleStates())
    {
      assert forall m :: 0 <= m < |loans| && m != k ==> loans[m] != loans[k];
      loans[k].RegisterMissedPayment();
      LoanReplaced(k);
    }

    /** The `i`-th schedule's RecordRun, seen from the ledger. */
    method RecordRunAt(i: nat, t: ScheduleState)
      requires Valid() && i < |schedules| && WellFormed(t) && SameSetup(schedules[i].State(), t)
      modifies schedules[i]
      ensures Valid()
      ensures ScheduleStates() == old(ScheduleStates())[i := t]
      ensures AccountStates() == old(AccountStates()) && LoanStates() == old(LoanStates())
    {
      schedules[i].RecordRun(t);
    }

    /** `PaymentSchedules.Add`, as both SchedulePayment overloads do it. */
    method AddSchedule(p: PaymentSchedule)
      requires Valid() && p.Valid() && p !in schedules
      modifies this
      ensures Valid()
      ensures schedules == old(schedules) + [p]
      ensures customers == old(customers) && accounts == old(accounts) && loans == old(loans)
    {
      schedules := schedules + [p];
    }

    /** `Accounts.Add`: the list is public and its callers add accounts directly. */
    method AddAccount(a: Account)
      requires Valid() && a.Valid() && a !in accounts
      modifies this
      ensures Valid()
      ensures accounts == old(accounts) + [a]
      ensures customers == old(customers) && loans == old(loans) && schedules == old(schedules)
    {
      accounts := accounts + [a];
    }

    /** `Loans.Add`: the list is public and its callers add loans directly. */
    method AddLoan(l: Loan)
      requires Valid() && l.Valid() && l !in loans
      modifies this
      ensures Valid()
      ensures loans == old(loans) + [l]
      ensures customers == old(customers) && accounts == old(accounts) && schedules == old(schedules)
    {
      loans := loans + [l];
    }

    /** CreateCustomer: a customer with the next customer id, appended to the list. */
    method CreateCustomer(ids: IdGenerator, name: string, email: string, phone: string, governmentId: string) returns (c: Customer)
      requires Valid()
      modifies this, ids
      ensures Valid()
      ensures c == Customer(old(ids.customerSeq), name, email, phone, governmentId)
      ensures ids.customerSeq == old(ids.customerSeq) + 1 && ids.accountSeq == old(ids.accountSeq)
      ensures customers == old(customers) + [c]
      ensures accounts == old(accounts) && loans == old(loans) && schedules == old(schedules)
    {
      var id := ids.NewCustomerId();
      c := Customer(id, name, email, phone, governmentId);
      customers := customers + [c];
    }

    /** SetAccountStatus: false for an unknown number; otherwise the first account with it takes the status. */
    method SetAccountStatus(number: string, status: AccountStatus) returns (ok: bool)
      requires Valid()
      modifies accounts
      ensures Valid()
      ensures ok == IndexOfAccount(accounts, number).Some?
      ensures AccountStates() == if ok then old(AccountStates())[IndexOfAccount(accounts, number).value := old(AccountStates())[IndexOfAccount(accounts, number).value].(status := status)] else old(AccountStates())
    {
      var i := IndexOfAccount(accounts, number);
      if i.None? {
        return false;
      }
      SetStatusAt(i.value, status);
      return true;
    }

    /** FreezeAccount: SetAccountStatus to Frozen. */
    method FreezeAccount(number: string) returns (ok: bool)
      requires Valid()
      modifies accounts
      ensures Valid()
      ensures ok == IndexOfAccount(accounts, number).Some?
      ensures AccountStates() == if ok then old(AccountStates())[IndexOfAccount(accounts, number).value := old(AccountStates())[IndexOfAccount(accounts, number).value].(status := Frozen)] else old(AccountStates())
    {
      ok := SetAccountStatus(number, Frozen);
    }

    /** UnfreezeAccount: SetAccountStatus to Active, which also reopens a Closed account. */
    method UnfreezeAccount(number: string) returns (ok: bool)
      requires Valid()
      modifies accounts
      ensures Valid()
      ensures ok == IndexOfAccount(accounts, number).Some?
      ensures AccountStates() == if ok then old(AccountStates())[IndexOfAccount(accounts, number).value := old(AccountStates())[IndexOfAccount(accounts, number).value].(status := Active)] else old(AccountStates())
    {
      ok := SetAccountStatus(number, Active);
    }

    /** Deposit: false for an unknown number, otherwise exactly the account's own Deposit. */
    method Deposit(number: string, amount: real) returns (ok: bool)
      requires Valid()
      modifies accounts
      ensures Valid()
      ensures var i := IndexOfAccount(accounts, number);
        ok == (i.Some? && CanDeposit(old(AccountStates())[i.value], amount))
      ensures var i := IndexOfAccount(accounts, number);
        AccountStates() == if ok then old(AccountStates())[i.value := AfterDeposit(old(AccountStates())[i.value], amount)] else old(AccountStates())
    {
      var i := IndexOfAccount(accounts, number);
      if i.None? {
        return false;
      }
      ok := DepositAt(i.value, amount);
    }

    /**
     * Withdraw: an amount outside (0, 5000] is refused before the lookup, an
     * unknown number is refused, and otherwise it is exactly the account's own
     * Withdraw, savings cap and CD penalty included.
     */
    method Withdraw(number: string, amount: real, today: Date) returns (ok: bool)
      requires Valid()
      modifies accounts
      ensures Valid()
      ensures var i := IndexOfAccount(accounts, number);
        ok == (0.0 < amount <= MaxWithdrawal && i.Some? && CanWithdraw(accounts[i.value].kind, old(AccountStates())[i.value], amount, today))
      ensures var i := IndexOfAccount(accounts, number);
        AccountStates() == if ok then old(AccountStates())[i.value := AfterWithdraw(accounts[i.value].kind, old(AccountStates())[i.value], amount, today)] else old(AccountStates())
    {
      if amount <= 0.0 || amount > MaxWithdrawal {
        return false;
      }
      var i := IndexOfAccount(accounts, number);
      if i.None? {
        return false;
      }
      ok := WithdrawAt(i.value, amount, today);
    }

    /** Debit the `i`-th account and, when that succeeds, offer `credit` to the `j`-th, ignoring whether it accepts. */
    method DebitThenCreditAt(i: nat, j: nat, amount: real, credit: real, today: Date) returns (ok: bool)
      requires Valid() && i < |accounts| && j < |accounts|
      modifies accounts[i], accounts[j]
      ensures Valid()
      ensures (ok, AccountStates()) == DebitThenCredit(accounts[i].kind, old(AccountStates()), i, j, amount, credit, today)
    {
      ok := WithdrawAt(i, amount, today);
      if !ok {
        return;
      }
      var _ := DepositAt(j, credit);
    }

    /** Transfer, as TransferEffect describes it. */
    method Transfer(from: string, to: string, amount: real, today: Date) returns (ok: bool)
      requires Valid()
      modifies accounts
      ensures Valid()
      ensures (ok, AccountStates()) == TransferEffect(accounts, old(AccountStates()), from, to, amount, today)
    {
      if amount <= 0.0 || amount > MaxTransfer {
        return false;
      }
      var ia := IndexOfAccount(accounts, from);
      var ib := IndexOfAccount(accounts, to);
      if ia.None? || ib.None? || amount <= 0.0 {
        return false;
      }
      var a, b := accounts[ia.value], accounts[ib.value];
      assert a.State() == AccountStates()[ia.value] && b.State() == AccountStates()[ib.value];
      if a.status != Active || b.status == Closed {
        return false;
      }
      var credit: real;
      if !EqualsIgnoreCase(a.currency, b.currency) {
        var converted := Convert(amount, a.currency, b.currency);
        if converted.None? {
          return false;
        }
        credit := converted.value;
      } else {
        credit := amount;
      }
      assert TransferGate(accounts, AccountStates(), from, to, amount) == Some((ia.value, ib.value, credit));
      ok := DebitThenCreditAt(ia.value, ib.value, amount, credit, today);
    }

    /** ApplyInterestToAll: ApplyInterest once on every account, in order. */
    method ApplyInterestToAll(date: Date, monthly: bool)
      requires Valid()
      modifies accounts
      ensures Valid()
      ensures |AccountStates()| == |old(AccountStates())|
      ensures forall k :: 0 <= k < |accounts| ==>
        AccountStates()[k] == AfterInterest(accounts[k].kind, accounts[k].interestStrategy, old(AccountStates())[k], date, monthly)
    {
      ghost var before := AccountStates();
      for i := 0 to |accounts|
        invariant Valid()
        invariant |AccountStates()| == |before|
        invariant forall k :: 0 <= k < i ==>
          AccountStates()[k] == AfterInterest(accounts[k].kind, accounts[k].interestStrategy, before[k], date, monthly)
        invariant forall k :: i <= k < |accounts| ==> AccountStates()[k] == before[k]
      {
        ApplyInterestAt(i, date, monthly);
      }
    }

    /** CreateLoan: the factory's loan, which the ledger does not add to its list. */
    method CreateLoan(loanId: string, customerId: int, selector: string, principal: real, termMonths: int, currency: string) returns (l: Loan?)
      ensures l == null <==> selector != "1" && selector != "2" && selector != "3"
      ensures selector == "1" ==> l != null && l.kind == Personal
      ensures selector == "2" ==> l != null && l.kind == Mortgage
      ensures selector == "3" ==> l != null && l.kind == Auto
      ensures l != null ==>
        && fresh(l) && l.Valid()
        && l.loanId == loanId && l.customerId == customerId && l.termMonths == termMonths && l.currency == currency
        && l.State() == Fresh(principal)
    {
      l := Factories.CreateLoan(loanId, customerId, selector, principal, termMonths, currency);
    }

    /**
     * The short SchedulePayment: false, adding nothing, for an unknown source
     * or an amount that is not positive; otherwise one new schedule appended.
     */
    method SchedulePaymentQuick(source: string, destination: string, amount: real, periodicity: string, today: Date) returns (ok: bool)
      requires Valid()
      modifies this
      ensures Valid()
      ensures ok == (IndexOfAccount(accounts, source).Some? && amount > 0.0)
      ensures customers == old(customers) && accounts == old(accounts) && loans == old(loans)
      ensures !ok ==> schedules == old(schedules)
      ensures ok ==>
        && |schedules| == |old(schedules)| + 1 && schedules[..|old(schedules)|] == old(schedules)
        && fresh(schedules[|old(schedules)|])
        && schedules[|old(schedules)|].State() == QuickSchedule(source, destination, amount, periodicity, today)
    {
      var src := IndexOfAccount(accounts, source);
      if src.None? || amount <= 0.0 {
        return false;
      }
      var p := new PaymentSchedule.Init(QuickSchedule(source, destination, amount, periodicity, today));
      AddSchedule(p);
      return true;
    }

    /**
     * The full SchedulePayment: false, adding nothing, for an unknown source or
     * an amount that is not positive; otherwise one new schedule appended,
     * first due on FirstDueDate, with the retry settings brought into range.
     */
    method SchedulePayment(source: string, destination: string, amount: real, periodicity: Periodicity, dayOfMonth: Option<int>,
                           startDate: Date, endDate: Option<Date>, maxRetries: int, retryEveryDays: int,
                           name: Option<string>, memo: Option<string>, today: Date) returns (ok: bool)
      requires Valid()
      requires periodicity == Monthly && dayOfMonth.Some? ==> dayOfMonth.value >= 1
      modifies this
      ensures Valid()
      ensures ok == (IndexOfAccount(accounts, source).Some? && amount > 0.0)
      ensures customers == old(customers) && accounts == old(accounts) && loans == old(loans)
      ensures !ok ==> schedules == old(schedules)
      ensures ok ==>
        && |schedules| == |old(schedules)| + 1 && schedules[..|old(schedules)|] == old(schedules)
        && fresh(schedules[|old(schedules)|])
        && schedules[|old(schedules)|].State() == FullSchedule(source, destination, amount, periodicity, dayOfMonth, startDate, endDate, maxRetries, retryEveryDays, name, memo, today)
    {
      var src := IndexOfAccount(accounts, source);
      if src.None? || amount <= 0.0 {
        return false;
      }
      AddFullSchedule(source, destination, amount, periodicity, dayOfMonth, startDate, endDate, maxRetries, retryEveryDays, name, memo, today);
      return true;
    }

    /** The accepted branch of the full SchedulePayment: the new schedule is built and appended. */
    method AddFullSchedule(source: string, destination: string, amount: real, periodicity: Periodicity, dayOfMonth: Option<int>,
                           startDate: Date, endDate: Option<Date>, maxRetries: int, retryEveryDays: int,
                           name: Option<string>, memo: Option<string>, today: Date)
      requires Valid()
      requires periodicity == Monthly && dayOfMonth.Some? ==> dayOfMonth.value >= 1
      modifies this
      ensures Valid()
      ensures customers == old(customers) && accounts == old(accounts) && loans == old(loans)
      ensures |schedules| == |old(schedules)| + 1 && schedules[..|old(schedules)|] == old(schedules)
      ensures fresh(schedules[|old(schedules)|])
      ensures schedules[|old(schedules)|].State() == FullSchedule(source, destination, amount, periodicity, dayOfMonth, startDate, endDate, maxRetries, retryEveryDays, name, memo, today)
    {
      var p := NewSchedule(source, destination, amount, periodicity, dayOfMonth, startDate, endDate, maxRetries, retryEveryDays, name, memo, today);
      assert p !in schedules;
      AddSchedule(p);
      assert schedules[|old(schedules)|] == p;
    }
  }

  /**
   * The sample data: a savings account funded with 1200 and a checking
   * account funded with 300, both in dollars; a transfer of 100 from the
   * first to the second succeeds and leaves 1100 and 400.
   */
  lemma SeedTransfer(accs: seq<Account>, today: Date)
    requires |accs| == 2 && accs[0].number != accs[1].number
    requires accs[0].kind == Savings && accs[1].kind == Checking
    requires accs[0].currency == "USD" && accs[1].currency == "USD"
    ensures var states := [AfterDeposit(Opened, 1200.0), AfterDeposit(Opened, 300.0)];
      var (ok, states') := TransferEffect(accs, states, accs[0].number, accs[1].number, 100.0, today);
      ok && states'[0].balance == 1100.0 && states'[1].balance == 400.0
  {
    assert IndexOfAccount(accs, accs[1].number) == Some(1);
    assert EqualsIgnoreCase("USD", "USD");
  }
}
