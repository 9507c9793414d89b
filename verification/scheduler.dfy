/**
 * Services/SchedulerService.cs: runs the ledger's recurring payments that are
 * due, moving dates off weekends and holidays, retrying declined payments and
 * escalating exhausted ones onto the destination loan.
 */
module Scheduler {
  import opened Wrappers
  import opened Domain
  import opened Dates
  import opened Accounts
  import opened Loans
  import opened Schedules
  import opened BankServices

  // ---------------------------------------------------------------------------
  // Business days

  /** Day `d` is 1 January of its year. */
  predicate IsNewYear(d: Date) {
    DaysBeforeYear(YearFrom(d, 1)) == d
  }

  /** The fixed holidays, 1 January and 25 December; a 25 December is the day a week before a 1 January. */
  predicate IsHoliday(d: Date) {
    IsNewYear(d) || IsNewYear(d + 7)
  }

  /** Monday to Friday, and not a holiday. */
  predicate IsBusinessDay(d: Date) {
    DayOfWeek(d) != Saturday && DayOfWeek(d) != Sunday && !IsHoliday(d)
  }

  /** A day lies in exactly one year. */
  lemma YearUnique(n: Date, y: int, z: int)
    requires DaysBeforeYear(y) <= n < DaysBeforeYear(y + 1)
    requires DaysBeforeYear(z) <= n < DaysBeforeYear(z + 1)
    ensures y == z
  {
    if y < z {
      YearStartsIncrease(y + 1, z);
    } else if z < y {
      YearStartsIncrease(z + 1, y);
    }
  }

  /** Two different 1 Januaries are at least a year apart. */
  lemma NewYearsFarApart(a: Date, b: Date)
    requires IsNewYear(a) && a != b && -365 < b - a < 365
    ensures !IsNewYear(b)
  {
    var ya, yb := YearFrom(a, 1), YearFrom(b, 1);
    if yb < ya {
      YearStartsIncrease(yb, ya);
    } else if ya < yb {
      YearStartsIncrease(ya, yb);
    }
  }

  /** The six days after a holiday are not holidays: the two holidays are a week apart. */
  lemma NoHolidaySoonAfter(h: Date, k: int)
    requires IsHoliday(h) && 1 <= k <= 6
    ensures !IsHoliday(h + k)
  {
    if IsNewYear(h) {
      NewYearsFarApart(h, h + k);
      NewYearsFarApart(h, h + k + 7);
    } else {
      NewYearsFarApart(h + 7, h + k);
      NewYearsFarApart(h + 7, h + k + 7);
    }
  }

  /** The 1 January test agrees with the calendar. */
  lemma NewYearIsJanuaryFirst(d: Date)
    ensures IsNewYear(d) <==> Month(d) == 1 && Day(d) == 1
  {
    var c := Civil(d);
    var y := YearFrom(d, 1);
    assert c.year == y;
    var doy := d - DaysBeforeYear(y);
    MonthsPartitionYear(y, 1);
    if c.month >= 2 {
      MonthStartsIncrease(y, 2, c.month);
    }
  }

  /** The first day of every year is a 1 January. */
  lemma YearStartIsNewYear(y: int)
    ensures IsNewYear(DaysBeforeYear(y))
  {
    var n := DaysBeforeYear(y);
    YearFromBounds(n, 1);
    YearStartsIncrease(y, y + 1);
    YearUnique(n, y, YearFrom(n, 1));
  }

  /** 25 December is a week before a 1 January. */
  lemma ChristmasIsWeekBeforeNewYear(d: Date)
    requires Month(d) == 12 && Day(d) == 25
    ensures IsNewYear(d + 7)
  {
    var y := Year(d);
    assert d == ToDays(CivilDate(y, 12, 25));
    MonthsPartitionYear(y, 12);
    NextYearStart(y);
    YearStartIsNewYear(y + 1);
  }

  /** The day a week before a 1 January is 25 December. */
  lemma WeekBeforeNewYearIsChristmas(d: Date)
    requires IsNewYear(d + 7)
    ensures Month(d) == 12 && Day(d) == 25
  {
    var z := YearFrom(d + 7, 1);
    var c := CivilDate(z - 1, 12, 25);
    MonthsPartitionYear(z - 1, 12);
    NextYearStart(z - 1);
    assert ValidCivil(c);
    assert ToDays(c) == d;
    CivilOfToDays(c);
  }

  /** The holiday test is the calendar's: 1 January and 25 December. */
  lemma HolidaysAreCalendarDates(d: Date)
    ensures IsHoliday(d) <==> (Month(d) == 1 && Day(d) == 1) || (Month(d) == 12 && Day(d) == 25)
  {
    NewYearIsJanuaryFirst(d);
    if IsNewYear(d + 7) {
      WeekBeforeNewYearIsChristmas(d);
    }
    if Month(d) == 12 && Day(d) == 25 {
      ChristmasIsWeekBeforeNewYear(d);
    }
  }

  /** Two weekdays at most three days apart among the four days from `d`. */
  lemma WeekdayPair(d: Date) returns (i: int, j: int)
    ensures 0 <= i < j <= 3
    ensures DayOfWeek(d + i) != Saturday && DayOfWeek(d + i) != Sunday
    ensures DayOfWeek(d + j) != Saturday && DayOfWeek(d + j) != Sunday
  {
    var w := DayOfWeek(d);
    if w == 6 {
      i, j := 2, 3;
    } else if w == 0 {
      i, j := 1, 2;
    } else if w == 5 {
      i, j := 0, 3;
    } else {
      i, j := 0, 1;
    }
  }

  /** One of the four days from `d` is a business day: the earlier weekday of the pair, or the later one if that is a holiday. */
  lemma BusinessDayOffset(d: Date) returns (k: int)
    ensures 0 <= k <= 3 && IsBusinessDay(d + k)
  {
    var i, j := WeekdayPair(d);
    if IsHoliday(d + i) {
      NoHolidaySoonAfter(d + i, j - i);
      k := j;
    } else {
      k := i;
    }
  }

  /** Among any four consecutive days there is a business day. */
  lemma BusinessDayWithinFour(d: Date)
    ensures IsBusinessDay(d) || IsBusinessDay(d + 1) || IsBusinessDay(d + 2) || IsBusinessDay(d + 3)
  {
    var k := BusinessDayOffset(d);
    if k == 0 {
      assert d + k == d;
    } else if k == 1 {
      assert d + k == d + 1;
    } else if k == 2 {
      assert d + k == d + 2;
    } else {
      assert d + k == d + 3;
    }
  }

  /** The earliest business day on or after `d`. */
  function NextBusinessDayOf(d: Date): (r: Date)
    ensures IsBusinessDay(r)
    ensures d <= r <= d + 3
    ensures forall k :: d <= k < r ==> !IsBusinessDay(k)
  {
    BusinessDayWithinFour(d);
    if IsBusinessDay(d) then d
    else if IsBusinessDay(d + 1) then d + 1
    else if IsBusinessDay(d + 2) then d + 2
    else d + 3
  }

  /** NextBusinessDay: step a day at a time until the date is a business day. */
  method NextBusinessDay(date: Date) returns (d: Date)
    ensures d == NextBusinessDayOf(date)
  {
    d := date;
    while !IsBusinessDay(d)
      invariant date <= d <= NextBusinessDayOf(date)
      decreases NextBusinessDayOf(date) - d
    {
      d := AddDays(d, 1);
    }
  }

  /** The adjustment leaves business days alone and so is idempotent. */
  lemma NextBusinessDayIdempotent(d: Date)
    ensures IsBusinessDay(d) ==> NextBusinessDayOf(d) == d
    ensures NextBusinessDayOf(NextBusinessDayOf(d)) == NextBusinessDayOf(d)
  {
  }

  /** A later date never adjusts to an earlier business day. */
  lemma NextBusinessDayMonotone(d: Date, e: Date)
    requires d <= e
    ensures NextBusinessDayOf(d) <= NextBusinessDayOf(e)
  {
  }

  // ---------------------------------------------------------------------------
  // One schedule

  /** The account and loan states a run works on. */
  datatype Ledger = Ledger(accounts: seq<AccountState>, loans: seq<LoanState>)

  /** What happened to a schedule in a run; only Executed is counted. */
  datatype Attempt = Inactive | Expired | NotDue | NoSource | Retrying | Exhausted | NoDestination | Executed

  const FinishedResult := "Finalizado"
  const DeclinedResult := "Fondos insuficientes"
  const NoDestinationResult := "Destino no encontrado"
  const OkResult := "OK"

  /** The next due date before the business-day shift: a day or a month on, then the monthly day-of-month clamp. */
  function NextDue(d: Date, periodicity: Periodicity, dayOfMonth: Option<int>): Date
    requires periodicity == Monthly && dayOfMonth.Some? ==> dayOfMonth.value >= 1
  {
    var next := if periodicity == Daily then AddDays(d, 1) else AddMonths(d, 1);
    if dayOfMonth.Some? && periodicity == Monthly then
      WithDayOfMonth(next, Min(dayOfMonth.value, DaysInMonth(Year(next), Month(next))))
    else next
  }

  /**
   * A daily schedule moves on one day; a monthly one moves into the next
   * calendar month, on its day of month clamped to that month's length when
   * it has one. Either way the date moves strictly forward.
   */
  lemma NextDueContract(d: Date, periodicity: Periodicity, dayOfMonth: Option<int>)
    requires periodicity == Monthly && dayOfMonth.Some? ==> dayOfMonth.value >= 1
    ensures NextDue(d, periodicity, dayOfMonth) > d
    ensures periodicity == Daily ==> NextDue(d, periodicity, dayOfMonth) == d + 1
    ensures periodicity == Monthly ==>
      var r := NextDue(d, periodicity, dayOfMonth);
      && 12 * Year(r) + Month(r) == 12 * Year(d) + Month(d) + 1
      && (dayOfMonth.Some? ==> Day(r) == Min(dayOfMonth.value, DaysInMonth(Year(r), Month(r))))
      && (dayOfMonth.None? ==> Day(r) == Min(Day(d), DaysInMonth(Year(r), Month(r))))
  {
    if periodicity == Monthly {
      var r := NextDue(d, periodicity, dayOfMonth);
      var next := AddMonths(d, 1);
      LaterMonthIsLater(d, r);
    }
  }

  /** A declined attempt as the schedule records it: the retry bookkeeping, then a retry date unless retries are used up. */
  function Declined(s: ScheduleState, asOf: Date): (r: (ScheduleState, Attempt))
    requires WellFormed(s)
    ensures WellFormed(r.0)
    ensures r.1 == Retrying || r.1 == Exhausted
  {
    var s' := s.(lastAttempt := Some(asOf), lastResult := DeclinedResult, retriesDone := s.retriesDone + 1);
    if s'.retriesDone <= s.maxRetries then (s'.(nextDate := NextBusinessDayOf(AddDays(asOf, s.retryEveryDays))), Retrying)
    else (s', Exhausted)
  }

  /** A missed payment registered on the destination loan, when the destination is a loan. */
  function MissDestination(lns: seq<Loan>, w: Ledger, s: ScheduleState): (r: Ledger)
    requires |w.loans| == |lns|
    ensures r.accounts == w.accounts && |r.loans| == |lns|
  {
    match IndexOfLoan(lns, s.destinationId)
    case None => w
    case Some(k) => w.(loans := w.loans[k := Missed(w.loans[k])])
  }

  /** A declined attempt: the retry bookkeeping, then a retry date or, once retries are used up, a missed loan payment. */
  function Decline(lns: seq<Loan>, w: Ledger, s: ScheduleState, asOf: Date): (r: (Ledger, ScheduleState, Attempt))
    requires |w.loans| == |lns| && WellFormed(s)
    ensures r.0.accounts == w.accounts && |r.0.loans| == |lns| && WellFormed(r.1)
    ensures r.2 == Retrying || r.2 == Exhausted
  {
    var d := Declined(s, asOf);
    (if d.1 == Exhausted then MissDestination(lns, w, s) else w, d.0, d.1)
  }

  /**
   * After the debit: deposit into the destination account (a refused deposit
   * is ignored), or else pay the destination loan; None when the destination
   * is neither.
   */
  function Credit(accs: seq<Account>, lns: seq<Loan>, w: Ledger, s: ScheduleState, asOf: Date): (r: Option<Ledger>)
    requires |w.accounts| == |accs| && |w.loans| == |lns|
    ensures r.Some? ==> |r.value.accounts| == |accs| && |r.value.loans| == |lns|
    ensures r.None? <==> IndexOfAccount(accs, s.destinationId).None? && IndexOfLoan(lns, s.destinationId).None?
    ensures IndexOfAccount(accs, s.destinationId).Some? ==> r.Some? && r.value.loans == w.loans
    ensures IndexOfAccount(accs, s.destinationId).None? ==> r.Some? ==> r.value.accounts == w.accounts
  {
    match IndexOfAccount(accs, s.destinationId)
    case Some(j) =>
      Some(if CanDeposit(w.accounts[j], s.amount) then w.(accounts := w.accounts[j := AfterDeposit(w.accounts[j], s.amount)]) else w)
    case None =>
      match IndexOfLoan(lns, s.destinationId)
      case Some(k) => Some(w.(loans := w.loans[k := Paid(w.loans[k], s.amount, asOf)]))
      case None => None
  }

  /** The schedule after an executed payment: attempt recorded, retries cleared, next due date on a business day. */
  function Advanced(s: ScheduleState, asOf: Date): (r: ScheduleState)
    requires WellFormed(s)
    ensures WellFormed(r)
  {
    s.(lastAttempt := Some(asOf), lastResult := OkResult, retriesDone := 0,
       nextDate := NextBusinessDayOf(NextDue(s.nextDate, s.periodicity, s.dayOfMonth)))
  }

  /** After the debit: credit the destination and move the schedule on, or record that there is no destination. */
  function Settle(accs: seq<Account>, lns: seq<Loan>, w: Ledger, s: ScheduleState, asOf: Date): (r: (Ledger, ScheduleState, Attempt))
    requires |w.accounts| == |accs| && |w.loans| == |lns|
    requires WellFormed(s)
    ensures |r.0.accounts| == |accs| && |r.0.loans| == |lns| && WellFormed(r.1)
    ensures r.2 == Executed || r.2 == NoDestination
    ensures r.2 == Executed ==> r.1 == Advanced(s, asOf)
  {
    match Credit(accs, lns, w, s, asOf)
    case Some(credited) => (credited, Advanced(s, asOf), Executed)
    case None => (w, s.(lastResult := NoDestinationResult), NoDestination)
  }

  /** A due schedule whose source is account `i`: the withdrawal, then Settle or Decline. */
  function Due(accs: seq<Account>, lns: seq<Loan>, w: Ledger, s: ScheduleState, i: nat, asOf: Date, today: Date): (r: (Ledger, ScheduleState, Attempt))
    requires |w.accounts| == |accs| && |w.loans| == |lns| && i < |accs|
    requires WellFormed(s)
    ensures |r.0.accounts| == |accs| && |r.0.loans| == |lns| && WellFormed(r.1)
    ensures r.2 == Executed ==> CanWithdraw(accs[i].kind, w.accounts[i], s.amount, today) && r.1 == Advanced(s, asOf)
  {
    if !CanWithdraw(accs[i].kind, w.accounts[i], s.amount, today) then Decline(lns, w, s, asOf)
    else Settle(accs, lns, w.(accounts := w.accounts[i := AfterWithdraw(accs[i].kind, w.accounts[i], s.amount, today)]), s, asOf)
  }

  /** An active schedule once its date is on a business day: not yet due, no source account, or Due. */
  function Collect(accs: seq<Account>, lns: seq<Loan>, w: Ledger, s: ScheduleState, asOf: Date, today: Date): (r: (Ledger, ScheduleState, Attempt))
    requires |w.accounts| == |accs| && |w.loans| == |lns|
    requires WellFormed(s)
    ensures |r.0.accounts| == |accs| && |r.0.loans| == |lns|
    ensures WellFormed(r.1)
  {
    if s.nextDate > asOf then (w, s, NotDue)
    else match IndexOfAccount(accs, s.sourceAccount)
      case None => (w, s, NoSource)
      case Some(i) => Due(accs, lns, w, s, i, asOf, today)
  }

  /** The body of the scheduler's loop for one schedule `s`, run on `asOf`, with `today` the clock's date. */
  function Execute(accs: seq<Account>, lns: seq<Loan>, w: Ledger, s: ScheduleState, asOf: Date, today: Date): (r: (Ledger, ScheduleState, Attempt))
    requires |w.accounts| == |accs| && |w.loans| == |lns|
    requires WellFormed(s)
    ensures |r.0.accounts| == |accs| && |r.0.loans| == |lns|
    ensures WellFormed(r.1)
  {
    if !s.active then (w, s, Inactive)
    else if s.endDate.Some? && asOf > s.endDate.value then (w, s.(active := false, lastResult := FinishedResult), Expired)
    else Collect(accs, lns, w, s.(nextDate := NextBusinessDayOf(s.nextDate)), asOf, today)
  }

  // ---------------------------------------------------------------------------
  // Properties of one execution

  /** A run writes only a schedule's state, active flag, dates, retry count and last result; its setup is left alone. */
  lemma ExecuteKeepsSetup(accs: seq<Account>, lns: seq<Loan>, w: Ledger, s: ScheduleState, asOf: Date, today: Date)
    requires |w.accounts| == |accs| && |w.loans| == |lns| && WellFormed(s)
    ensures SameSetup(s, Execute(accs, lns, w, s, asOf, today).1)
  {
  }

  /** An inactive schedule is skipped untouched; an expired one is switched off and moves no money. */
  lemma ExecuteInactiveOrExpired(accs: seq<Account>, lns: seq<Loan>, w: Ledger, s: ScheduleState, asOf: Date, today: Date)
    requires |w.accounts| == |accs| && |w.loans| == |lns| && WellFormed(s)
    ensures !s.active ==> Execute(accs, lns, w, s, asOf, today) == (w, s, Inactive)
    ensures s.active && s.endDate.Some? && asOf > s.endDate.value ==>
      Execute(accs, lns, w, s, asOf, today) == (w, s.(active := false, lastResult := "Finalizado"), Expired)
  {
  }

  /**
   * An active, unexpired schedule always has its date moved to a business
   * day; when that date is after the run date nothing else happens, and a
   * missing source account skips it with no retry bookkeeping.
   */
  lemma ExecuteAdjustsDate(accs: seq<Account>, lns: seq<Loan>, w: Ledger, s: ScheduleState, asOf: Date, today: Date)
    requires |w.accounts| == |accs| && |w.loans| == |lns| && WellFormed(s)
    requires s.active && !(s.endDate.Some? && asOf > s.endDate.value)
    ensures var s1 := s.(nextDate := NextBusinessDayOf(s.nextDate));
      && (s1.nextDate > asOf ==> Execute(accs, lns, w, s, asOf, today) == (w, s1, NotDue))
      && (s1.nextDate <= asOf && IndexOfAccount(accs, s.sourceAccount).None? ==> Execute(accs, lns, w, s, asOf, today) == (w, s1, NoSource))
  {
  }

  /**
   * A declined payment records the attempt and counts a retry; while retries
   * remain it is tried again on the first business day at least
   * RetryEveryDays after the run, and the ledger is untouched.
   */
  lemma ExecuteRetries(accs: seq<Account>, lns: seq<Loan>, w: Ledger, s: ScheduleState, asOf: Date, today: Date)
    requires |w.accounts| == |accs| && |w.loans| == |lns| && WellFormed(s)
    requires s.active && !(s.endDate.Some? && asOf > s.endDate.value) && NextBusinessDayOf(s.nextDate) <= asOf
    requires IndexOfAccount(accs, s.sourceAccount).Some?
    requires var i := IndexOfAccount(accs, s.sourceAccount).value; !CanWithdraw(accs[i].kind, w.accounts[i], s.amount, today)
    requires s.retriesDone + 1 <= s.maxRetries
    ensures var (w', s', attempt) := Execute(accs, lns, w, s, asOf, today);
      && attempt == Retrying && w' == w
      && s'.retriesDone == s.retriesDone + 1 && s'.lastResult == "Fondos insuficientes" && s'.lastAttempt == Some(asOf)
      && s'.nextDate == NextBusinessDayOf(AddDays(asOf, s.retryEveryDays))
      && s'.nextDate >= asOf + s.retryEveryDays && s'.nextDate > asOf && IsBusinessDay(s'.nextDate)
  {
  }

  /**
   * Once retries are used up the payment is declined again, a destination
   * loan gets a missed payment, and the due date is left where it was, so the
   * schedule stays due and is attempted again on the next run.
   */
  lemma ExecuteExhausted(accs: seq<Account>, lns: seq<Loan>, w: Ledger, s: ScheduleState, asOf: Date, today: Date)
    requires |w.accounts| == |accs| && |w.loans| == |lns| && WellFormed(s)
    requires s.active && !(s.endDate.Some? && asOf > s.endDate.value) && NextBusinessDayOf(s.nextDate) <= asOf
    requires IndexOfAccount(accs, s.sourceAccount).Some?
    requires var i := IndexOfAccount(accs, s.sourceAccount).value; !CanWithdraw(accs[i].kind, w.accounts[i], s.amount, today)
    requires s.retriesDone + 1 > s.maxRetries
    ensures var (w', s', attempt) := Execute(accs, lns, w, s, asOf, today);
      && attempt == Exhausted && w'.accounts == w.accounts
      && s'.active && s'.nextDate == NextBusinessDayOf(s.nextDate) && s'.nextDate <= asOf
      && s'.retriesDone == s.retriesDone + 1 && s'.retriesDone > s'.maxRetries
      && s'.lastAttempt == Some(asOf) && s'.lastResult == "Fondos insuficientes"
      && (IndexOfLoan(lns, s.destinationId).Some? ==>
            var k := IndexOfLoan(lns, s.destinationId).value; w'.loans == w.loans[k := Missed(w.loans[k])])
      && (IndexOfLoan(lns, s.destinationId).None? ==> w'.loans == w.loans)
  {
  }

  /** Past the date adjustment, Exhausted means a due schedule whose source exists but cannot pay, with no retries left. */
  lemma CollectExhaustedOnlyWhen(accs: seq<Account>, lns: seq<Loan>, w: Ledger, s: ScheduleState, asOf: Date, today: Date)
    requires |w.accounts| == |accs| && |w.loans| == |lns| && WellFormed(s)
    requires Collect(accs, lns, w, s, asOf, today).2 == Exhausted
    ensures s.nextDate <= asOf && IndexOfAccount(accs, s.sourceAccount).Some?
    ensures var i := IndexOfAccount(accs, s.sourceAccount).value; !CanWithdraw(accs[i].kind, w.accounts[i], s.amount, today)
    ensures s.retriesDone + 1 > s.maxRetries
  {
    assert s.nextDate <= asOf;
    var i := IndexOfAccount(accs, s.sourceAccount).value;
    assert Collect(accs, lns, w, s, asOf, today) == Due(accs, lns, w, s, i, asOf, today);
    DueExhaustedOnlyWhen(accs, lns, w, s, i, asOf, today);
  }

  /** From a due schedule's source `i`, Exhausted means the withdrawal failed with no retries left. */
  lemma DueExhaustedOnlyWhen(accs: seq<Account>, lns: seq<Loan>, w: Ledger, s: ScheduleState, i: nat, asOf: Date, today: Date)
    requires |w.accounts| == |accs| && |w.loans| == |lns| && i < |accs| && WellFormed(s)
    requires Due(accs, lns, w, s, i, asOf, today).2 == Exhausted
    ensures !CanWithdraw(accs[i].kind, w.accounts[i], s.amount, today)
    ensures s.retriesDone + 1 > s.maxRetries
  {
    if !CanWithdraw(accs[i].kind, w.accounts[i], s.amount, today) {
      assert Due(accs, lns, w, s, i, asOf, today).2 == Declined(s, asOf).1;
    }
  }

  /** A run ends Exhausted only in the situation ExecuteExhausted describes. */
  lemma ExhaustedOnlyWhen(accs: seq<Account>, lns: seq<Loan>, w: Ledger, s: ScheduleState, asOf: Date, today: Date)
    requires |w.accounts| == |accs| && |w.loans| == |lns| && WellFormed(s)
    requires Execute(accs, lns, w, s, asOf, today).2 == Exhausted
    ensures s.active && !(s.endDate.Some? && asOf > s.endDate.value) && NextBusinessDayOf(s.nextDate) <= asOf
    ensures IndexOfAccount(accs, s.sourceAccount).Some?
    ensures var i := IndexOfAccount(accs, s.sourceAccount).value; !CanWithdraw(accs[i].kind, w.accounts[i], s.amount, today)
    ensures s.retriesDone + 1 > s.maxRetries
  {
    var s1 := s.(nextDate := NextBusinessDayOf(s.nextDate));
    assert Execute(accs, lns, w, s, asOf, today) == Collect(accs, lns, w, s1, asOf, today);
    CollectExhaustedOnlyWhen(accs, lns, w, s1, asOf, today);
  }

  /** An exhausted schedule whose source still cannot pay is exhausted again on the next run of the same day. */
  lemma ExhaustionRepeats(accs: seq<Account>, lns: seq<Loan>, w: Ledger, s: ScheduleState, asOf: Date, today: Date)
    requires |w.accounts| == |accs| && |w.loans| == |lns| && WellFormed(s)
    requires Execute(accs, lns, w, s, asOf, today).2 == Exhausted
    ensures var (w', s', _) := Execute(accs, lns, w, s, asOf, today);
      Execute(accs, lns, w', s', asOf, today).2 == Exhausted
  {
    var (w', s', _) := Execute(accs, lns, w, s, asOf, today);
    ExhaustedOnlyWhen(accs, lns, w, s, asOf, today);
    ExecuteExhausted(accs, lns, w, s, asOf, today);
    ExecuteKeepsSetup(accs, lns, w, s, asOf, today);
    NextBusinessDayIdempotent(s.nextDate);
    ExecuteExhausted(accs, lns, w', s', asOf, today);
  }

  /**
   * When the source pays but the destination resolves to neither an account
   * nor a loan, the source is debited, nothing is credited, the schedule is
   * not moved on and the run does not count it.
   */
  lemma ExecuteLosesFundsWithoutDestination(accs: seq<Account>, lns: seq<Loan>, w: Ledger, s: ScheduleState, asOf: Date, today: Date)
    requires |w.accounts| == |accs| && |w.loans| == |lns| && WellFormed(s)
    requires s.active && !(s.endDate.Some? && asOf > s.endDate.value) && NextBusinessDayOf(s.nextDate) <= asOf
    requires IndexOfAccount(accs, s.sourceAccount).Some?
    requires var i := IndexOfAccount(accs, s.sourceAccount).value; CanWithdraw(accs[i].kind, w.accounts[i], s.amount, today)
    requires IndexOfAccount(accs, s.destinationId).None? && IndexOfLoan(lns, s.destinationId).None?
    ensures var (w', s', attempt) := Execute(accs, lns, w, s, asOf, today);
      var i := IndexOfAccount(accs, s.sourceAccount).value;
      && attempt == NoDestination
      && w'.accounts == w.accounts[i := AfterWithdraw(accs[i].kind, w.accounts[i], s.amount, today)]
      && w'.loans == w.loans
      && s'.lastResult == "Destino no encontrado" && s'.nextDate == NextBusinessDayOf(s.nextDate) && s'.nextDate <= asOf
      && s'.retriesDone == s.retriesDone && s'.lastAttempt == s.lastAttempt
  {
  }

  /**
   * An executed payment clears the retries, records the attempt, and moves the
   * due date strictly past the date it paid for, onto a business day.
   */
  lemma ExecuteAdvances(accs: seq<Account>, lns: seq<Loan>, w: Ledger, s: ScheduleState, asOf: Date, today: Date)
    requires |w.accounts| == |accs| && |w.loans| == |lns| && WellFormed(s)
    requires Execute(accs, lns, w, s, asOf, today).2 == Executed
    ensures var s' := Execute(accs, lns, w, s, asOf, today).1;
      && s.active && NextBusinessDayOf(s.nextDate) <= asOf
      && s'.retriesDone == 0 && s'.lastResult == "OK" && s'.lastAttempt == Some(asOf)
      && s'.nextDate > NextBusinessDayOf(s.nextDate) && IsBusinessDay(s'.nextDate)
      && s'.nextDate == NextBusinessDayOf(NextDue(NextBusinessDayOf(s.nextDate), s.periodicity, s.dayOfMonth))
  {
    NextDueContract(NextBusinessDayOf(s.nextDate), s.periodicity, s.dayOfMonth);
  }

  /** Settling into an Active destination account deposits exactly the amount there and touches nothing else. */
  lemma SettleDeposits(accs: seq<Account>, lns: seq<Loan>, w: Ledger, s: ScheduleState, asOf: Date, j: nat)
    requires |w.accounts| == |accs| && |w.loans| == |lns| && WellFormed(s)
    requires IndexOfAccount(accs, s.destinationId) == Some(j)
    requires w.accounts[j].status == Active && s.amount > 0.0
    ensures var (w', s', attempt) := Settle(accs, lns, w, s, asOf);
      && attempt == Executed
      && w'.accounts[j].balance == w.accounts[j].balance + s.amount
      && (forall k :: 0 <= k < |accs| && k != j ==> w'.accounts[k] == w.accounts[k])
      && w'.loans == w.loans
  {
    assert Credit(accs, lns, w, s, asOf) == Some(w.(accounts := w.accounts[j := AfterDeposit(w.accounts[j], s.amount)]));
  }

  /** Settling into a loan, when no account has the destination id, pays that loan the amount on the run date and touches nothing else. */
  lemma SettlePaysLoan(accs: seq<Account>, lns: seq<Loan>, w: Ledger, s: ScheduleState, asOf: Date, k: nat)
    requires |w.accounts| == |accs| && |w.loans| == |lns| && WellFormed(s)
    requires IndexOfAccount(accs, s.destinationId).None? && IndexOfLoan(lns, s.destinationId) == Some(k)
    ensures var (w', s', attempt) := Settle(accs, lns, w, s, asOf);
      && attempt == Executed && s' == Advanced(s, asOf)
      && w'.accounts == w.accounts
      && w'.loans == w.loans[k := Paid(w.loans[k], s.amount, asOf)]
  {
    assert Credit(accs, lns, w, s, asOf) == Some(w.(loans := w.loans[k := Paid(w.loans[k], s.amount, asOf)]));
  }

  /** A withdrawal from account `i` that succeeds, settled into loan `k`, debits only `i` and pays only `k`. */
  lemma DuePaysLoan(accs: seq<Account>, lns: seq<Loan>, w: Ledger, s: ScheduleState, asOf: Date, today: Date, i: nat, k: nat)
    requires |w.accounts| == |accs| && |w.loans| == |lns| && WellFormed(s) && i < |accs|
    requires IndexOfAccount(accs, s.destinationId).None? && IndexOfLoan(lns, s.destinationId) == Some(k)
    requires CanWithdraw(accs[i].kind, w.accounts[i], s.amount, today)
    ensures var (w', s', attempt) := Due(accs, lns, w, s, i, asOf, today);
      && attempt == Executed
      && w'.accounts == w.accounts[i := AfterWithdraw(accs[i].kind, w.accounts[i], s.amount, today)]
      && w'.loans == w.loans[k := Paid(w.loans[k], s.amount, asOf)]
  {
    var debited := w.(accounts := w.accounts[i := AfterWithdraw(accs[i].kind, w.accounts[i], s.amount, today)]);
    assert Due(accs, lns, w, s, i, asOf, today) == Settle(accs, lns, debited, s, asOf);
    SettlePaysLoan(accs, lns, debited, s, asOf, k);
  }

  /**
   * A due payment whose source `i` can pay and whose destination id names no
   * account but loan `k` is executed: the source loses what its Withdraw
   * takes, the loan is paid the amount on the run date, and no other account
   * or loan changes.
   */
  lemma ExecutePaysLoan(accs: seq<Account>, lns: seq<Loan>, w: Ledger, s: ScheduleState, asOf: Date, today: Date, i: nat, k: nat)
    requires |w.accounts| == |accs| && |w.loans| == |lns| && WellFormed(s)
    requires s.active && !(s.endDate.Some? && asOf > s.endDate.value) && NextBusinessDayOf(s.nextDate) <= asOf
    requires IndexOfAccount(accs, s.sourceAccount) == Some(i)
    requires CanWithdraw(accs[i].kind, w.accounts[i], s.amount, today)
    requires IndexOfAccount(accs, s.destinationId).None? && IndexOfLoan(lns, s.destinationId) == Some(k)
    ensures var (w', s', attempt) := Execute(accs, lns, w, s, asOf, today);
      && attempt == Executed
      && w'.accounts == w.accounts[i := AfterWithdraw(accs[i].kind, w.accounts[i], s.amount, today)]
      && w'.loans == w.loans[k := Paid(w.loans[k], s.amount, asOf)]
  {
    var s1 := s.(nextDate := NextBusinessDayOf(s.nextDate));
    assert Execute(accs, lns, w, s, asOf, today) == Due(accs, lns, w, s1, i, asOf, today);
    DuePaysLoan(accs, lns, w, s1, asOf, today, i, k);
  }

  /** A withdrawal from account `i` that succeeds, settled into another Active account `j`, moves the amount unconverted. */
  lemma DueDeposits(accs: seq<Account>, lns: seq<Loan>, w: Ledger, s: ScheduleState, asOf: Date, today: Date, i: nat, j: nat)
    requires |w.accounts| == |accs| && |w.loans| == |lns| && WellFormed(s)
    requires i < |accs| && IndexOfAccount(accs, s.destinationId) == Some(j) && i != j
    requires CanWithdraw(accs[i].kind, w.accounts[i], s.amount, today)
    requires w.accounts[j].status == Active && s.amount > 0.0
    ensures var (w', s', attempt) := Due(accs, lns, w, s, i, asOf, today);
      && attempt == Executed
      && w'.accounts[j].balance == w.accounts[j].balance + s.amount
      && w'.accounts[i] == AfterWithdraw(accs[i].kind, w.accounts[i], s.amount, today)
      && (forall k :: 0 <= k < |accs| && k != i && k != j ==> w'.accounts[k] == w.accounts[k])
      && w'.loans == w.loans
  {
    var debited := w.(accounts := w.accounts[i := AfterWithdraw(accs[i].kind, w.accounts[i], s.amount, today)]);
    assert Due(accs, lns, w, s, i, asOf, today) == Settle(accs, lns, debited, s, asOf);
    SettleDeposits(accs, lns, debited, s, asOf, j);
  }

  /**
   * A due payment from account `i` that can pay, to another account `j`
   * that is Active, is executed and moves the schedule's amount as it
   * stands, with no currency conversion: the source loses what its own
   * Withdraw takes, the destination gains exactly the amount, and no other
   * account or loan changes.
   */
  lemma ExecuteCreditsUnconverted(accs: seq<Account>, lns: seq<Loan>, w: Ledger, s: ScheduleState, asOf: Date, today: Date, i: nat, j: nat)
    requires |w.accounts| == |accs| && |w.loans| == |lns| && WellFormed(s)
    requires s.active && !(s.endDate.Some? && asOf > s.endDate.value) && NextBusinessDayOf(s.nextDate) <= asOf
    requires IndexOfAccount(accs, s.sourceAccount) == Some(i) && IndexOfAccount(accs, s.destinationId) == Some(j) && i != j
    requires CanWithdraw(accs[i].kind, w.accounts[i], s.amount, today)
    requires w.accounts[j].status == Active && s.amount > 0.0
    ensures var (w', s', attempt) := Execute(accs, lns, w, s, asOf, today);
      && attempt == Executed
      && w'.accounts[j].balance == w.accounts[j].balance + s.amount
      && w'.accounts[i] == AfterWithdraw(accs[i].kind, w.accounts[i], s.amount, today)
      && (forall k :: 0 <= k < |accs| && k != i && k != j ==> w'.accounts[k] == w.accounts[k])
      && w'.loans == w.loans
  {
    var s1 := s.(nextDate := NextBusinessDayOf(s.nextDate));
    assert Execute(accs, lns, w, s, asOf, today) == Due(accs, lns, w, s1, i, asOf, today);
    DueDeposits(accs, lns, w, s1, asOf, today, i, j);
  }

  // ---------------------------------------------------------------------------
  // A whole run

  /** The run over the schedules in list order: the ledger it leaves, each schedule's new state and each one's outcome. */
  function RunAll(accs: seq<Account>, lns: seq<Loan>, w: Ledger, ps: seq<ScheduleState>, asOf: Date, today: Date): (r: (Ledger, seq<ScheduleState>, seq<Attempt>))
    requires |w.accounts| == |accs| && |w.loans| == |lns|
    requires forall k :: 0 <= k < |ps| ==> WellFormed(ps[k])
    ensures |r.0.accounts| == |accs| && |r.0.loans| == |lns|
    ensures |r.1| == |ps| && |r.2| == |ps|
    ensures forall k :: 0 <= k < |ps| ==> WellFormed(r.1[k])
  {
    if ps == [] then (w, [], [])
    else
      var before := RunAll(accs, lns, w, ps[..|ps| - 1], asOf, today);
      var last := Execute(accs, lns, before.0, ps[|ps| - 1], asOf, today);
      (last.0, before.1 + [last.1], before.2 + [last.2])
  }

  function CountExecuted(outcomes: seq<Attempt>): nat {
    if outcomes == [] then 0
    else CountExecuted(outcomes[..|outcomes| - 1]) + (if outcomes[|outcomes| - 1] == Executed then 1 else 0)
  }

  /** The count of executed payments never exceeds the number of schedules. */
  lemma {:induction false} CountExecutedBounded(outcomes: seq<Attempt>)
    ensures CountExecuted(outcomes) <= |outcomes|
    ensures (forall k :: 0 <= k < |outcomes| ==> outcomes[k] != Executed) ==> CountExecuted(outcomes) == 0
  {
    if outcomes != [] {
      CountExecutedBounded(outcomes[..|outcomes| - 1]);
    }
  }

  /**
   * A run over the first `m` schedules is the start of the run over all of
   * them: later schedules never change what earlier ones recorded, and
   * schedule `m - 1`'s state and outcome are its own execution on the ledger
   * the schedules before it left.
   */
  lemma {:induction false} RunAllPrefix(accs: seq<Account>, lns: seq<Loan>, w: Ledger, ps: seq<ScheduleState>, asOf: Date, today: Date, m: nat)
    requires |w.accounts| == |accs| && |w.loans| == |lns|
    requires forall k :: 0 <= k < |ps| ==> WellFormed(ps[k])
    requires m <= |ps|
    ensures var r := RunAll(accs, lns, w, ps, asOf, today);
      var prefix := RunAll(accs, lns, w, ps[..m], asOf, today);
      prefix.1 == r.1[..m] && prefix.2 == r.2[..m]
    decreases |ps|
  {
    if m < |ps| {
      var n := |ps| - 1;
      RunAllPrefix(accs, lns, w, ps[..n], asOf, today, m);
      assert ps[..n][..m] == ps[..m];
      var r := RunAll(accs, lns, w, ps, asOf, today);
      var before := RunAll(accs, lns, w, ps[..n], asOf, today);
      assert r.1[..n] == before.1 && r.2[..n] == before.2;
      assert r.1[..m] == before.1[..m] && r.2[..m] == before.2[..m];
    } else {
      assert ps[..m] == ps;
    }
  }

  // ---------------------------------------------------------------------------
  // The scheduler's methods

  /** The next due date after an executed payment, as the scheduler computes it. */
  method AdvanceDate(s: ScheduleState) returns (next: Date)
    requires WellFormed(s)
    ensures next == NextBusinessDayOf(NextDue(s.nextDate, s.periodicity, s.dayOfMonth))
  {
    next := if s.periodicity == Daily then AddDays(s.nextDate, 1) else AddMonths(s.nextDate, 1);
    if s.dayOfMonth.Some? && s.periodicity == Monthly {
      var days := DaysInMonth(Year(next), Month(next));
      var day := Min(s.dayOfMonth.value, days);
      next := WithDayOfMonth(next, day);
    }
    next := NextBusinessDay(next);
  }

  /** The retry bookkeeping of a declined payment on schedule fields `s` (Declined). */
  method DeclinedStep(s: ScheduleState, asOf: Date) returns (s': ScheduleState, attempt: Attempt)
    requires WellFormed(s)
    ensures (s', attempt) == Declined(s, asOf)
  {
    s' := s.(lastAttempt := Some(asOf), lastResult := DeclinedResult, retriesDone := s.retriesDone + 1);
    attempt := Exhausted;
    if s'.retriesDone <= s'.maxRetries {
      var next := NextBusinessDay(AddDays(asOf, s.retryEveryDays));
      s', attempt := s'.(nextDate := next), Retrying;
    }
  }

  /** The scheduler's handling of a declined payment on schedule fields `s` (Decline). */
  method DeclineStep(bank: BankService, s: ScheduleState, asOf: Date) returns (s': ScheduleState, attempt: Attempt)
    requires bank.Valid() && WellFormed(s)
    modifies bank.loans
    ensures bank.Valid()
    ensures (Ledger(bank.AccountStates(), bank.LoanStates()), s', attempt) ==
      Decline(bank.loans, old(Ledger(bank.AccountStates(), bank.LoanStates())), s, asOf)
    ensures bank.ScheduleStates() == old(bank.ScheduleStates())
  {
    ghost var w := Ledger(bank.AccountStates(), bank.LoanStates());
    var destLoan := IndexOfLoan(bank.loans, s.destinationId);
    s', attempt := DeclinedStep(s, asOf);
    if attempt == Exhausted && destLoan.Some? {
      bank.MissLoanAt(destLoan.value);
      assert Ledger(bank.AccountStates(), bank.LoanStates()) == MissDestination(bank.loans, w, s);
    } else {
      assert attempt == Exhausted ==> MissDestination(bank.loans, w, s) == w;
    }
  }

  /** The deposit into the destination account or the payment of the destination loan (Credit); `found` is false when there is neither. */
  method CreditStep(bank: BankService, s: ScheduleState, asOf: Date) returns (found: bool)
    requires bank.Valid()
    modifies bank.accounts, bank.loans
    ensures bank.Valid()
    ensures var c := Credit(bank.accounts, bank.loans, old(Ledger(bank.AccountStates(), bank.LoanStates())), s, asOf);
      found == c.Some? && (found ==> Ledger(bank.AccountStates(), bank.LoanStates()) == c.value)
    ensures !found ==> bank.AccountStates() == old(bank.AccountStates()) && bank.LoanStates() == old(bank.LoanStates())
    ensures bank.ScheduleStates() == old(bank.ScheduleStates())
  {
    var destAcc := IndexOfAccount(bank.accounts, s.destinationId);
    var destLoan := IndexOfLoan(bank.loans, s.destinationId);
    if destAcc.Some? {
      var _ := bank.DepositAt(destAcc.value, s.amount);
      return true;
    } else if destLoan.Some? {
      bank.PayLoanAt(destLoan.value, s.amount, asOf);
      return true;
    }
    return false;
  }

  /** The scheduler's handling of a debited payment on schedule fields `s` (Settle). */
  method SettleStep(bank: BankService, s: ScheduleState, asOf: Date) returns (s': ScheduleState, attempt: Attempt)
    requires bank.Valid() && WellFormed(s)
    modifies bank.accounts, bank.loans
    ensures bank.Valid()
    ensures (Ledger(bank.AccountStates(), bank.LoanStates()), s', attempt) ==
      Settle(bank.accounts, bank.loans, old(Ledger(bank.AccountStates(), bank.LoanStates())), s, asOf)
    ensures bank.ScheduleStates() == old(bank.ScheduleStates())
  {
    var found := CreditStep(bank, s, asOf);
    if !found {
      return s.(lastResult := NoDestinationResult), NoDestination;
    }
    var next := AdvanceDate(s);
    s' := s.(lastAttempt := Some(asOf), lastResult := OkResult, retriesDone := 0, nextDate := next);
    attempt := Executed;
  }

  /** A due schedule whose source is account `i` (Due). */
  method DueStep(bank: BankService, s: ScheduleState, i: nat, asOf: Date, today: Date) returns (s': ScheduleState, attempt: Attempt)
    requires bank.Valid() && WellFormed(s) && i < |bank.accounts|
    modifies bank.accounts, bank.loans
    ensures bank.Valid()
    ensures (Ledger(bank.AccountStates(), bank.LoanStates()), s', attempt) ==
      Due(bank.accounts, bank.loans, old(Ledger(bank.AccountStates(), bank.LoanStates())), s, i, asOf, today)
    ensures bank.ScheduleStates() == old(bank.ScheduleStates())
  {
    var withdrawn := bank.WithdrawAt(i, s.amount, today);
    if !withdrawn {
      s', attempt := DeclineStep(bank, s, asOf);
    } else {
      s', attempt := SettleStep(bank, s, asOf);
    }
  }

  /** An active schedule whose date is on a business day (Collect). */
  method CollectStep(bank: BankService, s: ScheduleState, asOf: Date, today: Date) returns (s': ScheduleState, attempt: Attempt)
    requires bank.Valid() && WellFormed(s)
    modifies bank.accounts, bank.loans
    ensures bank.Valid()
    ensures (Ledger(bank.AccountStates(), bank.LoanStates()), s', attempt) ==
      Collect(bank.accounts, bank.loans, old(Ledger(bank.AccountStates(), bank.LoanStates())), s, asOf, today)
    ensures bank.ScheduleStates() == old(bank.ScheduleStates())
  {
    if s.nextDate > asOf {
      return s, NotDue;
    }
    var src := IndexOfAccount(bank.accounts, s.sourceAccount);
    if src.None? {
      return s, NoSource;
    }
    s', attempt := DueStep(bank, s, src.value, asOf, today);
  }

  /** The body of the scheduler's loop on schedule fields `s` (Execute). */
  method Step(bank: BankService, s: ScheduleState, asOf: Date, today: Date) returns (s': ScheduleState, attempt: Attempt)
    requires bank.Valid() && WellFormed(s)
    modifies bank.accounts, bank.loans
    ensures bank.Valid()
    ensures (Ledger(bank.AccountStates(), bank.LoanStates()), s', attempt) ==
      Execute(bank.accounts, bank.loans, old(Ledger(bank.AccountStates(), bank.LoanStates())), s, asOf, today)
    ensures bank.ScheduleStates() == old(bank.ScheduleStates())
  {
    if !s.active {
      return s, Inactive;
    }
    if s.endDate.Some? && asOf > s.endDate.value {
      return s.(active := false, lastResult := FinishedResult), Expired;
    }
    var adjusted := NextBusinessDay(s.nextDate);
    s', attempt := CollectStep(bank, s.(nextDate := adjusted), asOf, today);
  }

  /** One pass of the scheduler's loop, over the `i`-th schedule; `executed` says whether it is counted. */
  method ExecuteSchedule(bank: BankService, i: nat, asOf: Date, today: Date,
                         ghost accs: seq<Account>, ghost lns: seq<Loan>, ghost w: Ledger, ghost s: ScheduleState)
      returns (executed: bool, ghost attempt: Attempt)
    requires bank.Valid() && i < |bank.schedules|
    requires accs == bank.accounts && lns == bank.loans
    requires w == Ledger(bank.AccountStates(), bank.LoanStates()) && s == bank.ScheduleStates()[i]
    modifies bank.schedules[i], bank.accounts, bank.loans
    ensures unchanged(bank)
    ensures bank.Valid()
    ensures var e := Execute(accs, lns, w, s, asOf, today);
      && Ledger(bank.AccountStates(), bank.LoanStates()) == e.0
      && bank.ScheduleStates() == old(bank.ScheduleStates())[i := e.1]
      && attempt == e.2
    ensures executed <==> attempt == Executed
  {
    var s', outcome := Step(bank, bank.schedules[i].State(), asOf, today);
    ExecuteKeepsSetup(accs, lns, w, s, asOf, today);
    bank.RecordRunAt(i, s');
    executed := outcome == Executed;
    attempt := outcome;
  }

  /**
   * ExecuteDuePayments: every schedule in list order, as RunAll describes;
   * the result is the number executed, at most the number of schedules.
   */
  method ExecuteDuePayments(bank: BankService, asOf: Date, today: Date) returns (count: nat, ghost outcomes: seq<Attempt>)
    requires bank.Valid()
    modifies bank.accounts, bank.loans, bank.schedules
    ensures bank.Valid()
    ensures var r := RunAll(bank.accounts, bank.loans, old(Ledger(bank.AccountStates(), bank.LoanStates())), old(bank.ScheduleStates()), asOf, today);
      Ledger(bank.AccountStates(), bank.LoanStates()) == r.0 && bank.ScheduleStates() == r.1 && outcomes == r.2
    ensures count == CountExecuted(outcomes) && count <= |bank.schedules|
  {
    ghost var accs, lns := bank.accounts, bank.loans;
    ghost var w0, ps0 := Ledger(bank.AccountStates(), bank.LoanStates()), bank.ScheduleStates();
    ProgressStarts(bank, asOf, today);
    count, outcomes := RunSchedules(bank, asOf, today, accs, lns, w0, ps0);
    ProgressFinishes(bank, asOf, today, accs, lns, w0, ps0, count, outcomes);
  }

  /** Before the loop, no schedule has run. */
  lemma ProgressStarts(bank: BankService, asOf: Date, today: Date)
    requires bank.Valid()
    ensures Progress(bank, asOf, today, bank.accounts, bank.loans, Ledger(bank.AccountStates(), bank.LoanStates()), bank.ScheduleStates(), 0, 0, [])
  {
    var ps0 := bank.ScheduleStates();
    forall k | 0 <= k < |ps0| ensures WellFormed(ps0[k]) {
      assert bank.schedules[k].Valid();
    }
    assert ps0[..0] == [] && ps0[0..] == ps0;
  }

  /** After the loop, every schedule has run, and at most that many payments were counted. */
  lemma ProgressFinishes(bank: BankService, asOf: Date, today: Date, accs: seq<Account>, lns: seq<Loan>,
                         w0: Ledger, ps0: seq<ScheduleState>, count: nat, outcomes: seq<Attempt>)
    requires Progress(bank, asOf, today, accs, lns, w0, ps0, |ps0|, count, outcomes)
    ensures bank.Valid() && bank.accounts == accs && bank.loans == lns
    ensures forall k :: 0 <= k < |ps0| ==> WellFormed(ps0[k])
    ensures |w0.accounts| == |accs| && |w0.loans| == |lns|
    ensures var r := RunAll(accs, lns, w0, ps0, asOf, today);
      Ledger(bank.AccountStates(), bank.LoanStates()) == r.0 && bank.ScheduleStates() == r.1 && outcomes == r.2
    ensures count == CountExecuted(outcomes) && count <= |bank.schedules|
  {
    assert ps0[..|ps0|] == ps0;
    CountExecutedBounded(outcomes);
  }

  /**
   * Where the loop of ExecuteDuePayments stands after the first `i`
   * schedules: the ledger and the schedules are what RunAll gives for them,
   * the later schedules are untouched, and `count` counts the executed ones.
   */
  ghost predicate Progress(bank: BankService, asOf: Date, today: Date, accs: seq<Account>, lns: seq<Loan>,
                           w0: Ledger, ps0: seq<ScheduleState>, i: nat, count: nat, outcomes: seq<Attempt>)
    reads bank, bank.accounts, bank.loans, bank.schedules
  {
    && i <= |ps0| == |bank.schedules|
    && (forall k :: 0 <= k < |ps0| ==> WellFormed(ps0[k]))
    && |w0.accounts| == |accs| && |w0.loans| == |lns|
    && bank.accounts == accs && bank.loans == lns
    && bank.Valid()
    && var r := RunAll(accs, lns, w0, ps0[..i], asOf, today);
      && Ledger(bank.AccountStates(), bank.LoanStates()) == r.0
      && bank.ScheduleStates() == r.1 + ps0[i..]
      && outcomes == r.2
      && count == CountExecuted(outcomes)
  }

  /** The loop of ExecuteDuePayments, over the ledger `w0` and the schedules `ps0` it starts from. */
  method RunSchedules(bank: BankService, asOf: Date, today: Date, ghost accs: seq<Account>, ghost lns: seq<Loan>,
                      ghost w0: Ledger, ghost ps0: seq<ScheduleState>) returns (count: nat, ghost outcomes: seq<Attempt>)
    requires Progress(bank, asOf, today, accs, lns, w0, ps0, 0, 0, [])
    modifies bank.accounts, bank.loans, bank.schedules
    ensures Progress(bank, asOf, today, accs, lns, w0, ps0, |ps0|, count, outcomes)
  {
    count := 0;
    outcomes := [];
    for i := 0 to |bank.schedules|
      invariant Progress(bank, asOf, today, accs, lns, w0, ps0, i, count, outcomes)
    {
      count, outcomes := RunNext(bank, i, asOf, today, accs, lns, w0, ps0, count, outcomes);
    }
  }

  /** One pass of the loop of ExecuteDuePayments: the `i`-th schedule runs and, when executed, is counted. */
  method RunNext(bank: BankService, i: nat, asOf: Date, today: Date, ghost accs: seq<Account>, ghost lns: seq<Loan>,
                 ghost w0: Ledger, ghost ps0: seq<ScheduleState>, count: nat, ghost outcomes: seq<Attempt>)
      returns (count': nat, ghost outcomes': seq<Attempt>)
    requires i < |ps0| && Progress(bank, asOf, today, accs, lns, w0, ps0, i, count, outcomes)
    modifies bank.schedules[i], bank.accounts, bank.loans
    ensures Progress(bank, asOf, today, accs, lns, w0, ps0, i + 1, count', outcomes')
  {
    ghost var before := RunAll(accs, lns, w0, ps0[..i], asOf, today);
    ghost var states := bank.ScheduleStates();
    assert states[i] == ps0[i];
    var executed, attempt := ExecuteSchedule(bank, i, asOf, today, accs, lns, before.0, ps0[i]);
    ghost var e := Execute(accs, lns, before.0, ps0[i], asOf, today);
    RunAllExtends(accs, lns, w0, ps0, i, asOf, today, states, outcomes, e);
    outcomes' := outcomes + [attempt];
    count' := if executed then count + 1 else count;
  }

  /**
   * The loop's step: once schedule `i` has been executed on what the first
   * `i` left, the run over the first `i + 1` schedules is accounted for.
   */
  lemma RunAllExtends(accs: seq<Account>, lns: seq<Loan>, w: Ledger, ps: seq<ScheduleState>, i: nat, asOf: Date, today: Date,
                      states: seq<ScheduleState>, outcomes: seq<Attempt>, e: (Ledger, ScheduleState, Attempt))
    requires |w.accounts| == |accs| && |w.loans| == |lns|
    requires forall k :: 0 <= k < |ps| ==> WellFormed(ps[k])
    requires i < |ps|
    requires var before := RunAll(accs, lns, w, ps[..i], asOf, today);
      states == before.1 + ps[i..] && outcomes == before.2
    requires e == Execute(accs, lns, RunAll(accs, lns, w, ps[..i], asOf, today).0, ps[i], asOf, today)
    ensures var after := RunAll(accs, lns, w, ps[..i + 1], asOf, today);
      && after.0 == e.0
      && states[i := e.1] == after.1 + ps[i + 1..]
      && outcomes + [e.2] == after.2
    ensures CountExecuted(outcomes + [e.2]) == CountExecuted(outcomes) + if e.2 == Executed then 1 else 0
  {
    assert ps[..i + 1][..i] == ps[..i];
    var before := RunAll(accs, lns, w, ps[..i], asOf, today);
    assert states[i := e.1] == (before.1 + [e.1]) + ps[i + 1..];
    assert (outcomes + [e.2])[..|outcomes|] == outcomes;
  }
}
