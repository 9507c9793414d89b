/** Domain/PaymentSchedule.cs: the mutable record of a recurring payment, written by the ledger and the scheduler. */
module Schedules {
  import opened Wrappers
  import opened Domain
  import opened Dates

  /** The fields of a schedule (all but its random id). */
  datatype ScheduleState = ScheduleState(
    sourceAccount: string,
    destinationId: string,
    amount: real,
    periodicity: Periodicity,
    nextDate: Date,
    name: string,
    memo: Option<string>,
    dayOfMonth: Option<int>,
    startDate: Date,
    endDate: Option<Date>,
    active: bool,
    maxRetries: int,
    retryEveryDays: int,
    retriesDone: int,
    lastResult: string,
    lastAttempt: Option<Date>)

  /**
   * What the ledger guarantees of every schedule it creates: a monthly
   * day-of-month is a real day (a smaller one makes `new DateTime` throw),
   * retries are spaced by at least a day and never negative in number.
   */
  predicate WellFormed(s: ScheduleState) {
    && (s.periodicity == Monthly && s.dayOfMonth.Some? ==> s.dayOfMonth.value >= 1)
    && s.maxRetries >= 0
    && s.retryEveryDays >= 1
    && s.retriesDone >= 0
  }

  /**
   * `t` differs from `s` at most in what a scheduler run writes: whether the
   * schedule is active, its next date, its retry count and its last result
   * and attempt.
   */
  predicate SameSetup(s: ScheduleState, t: ScheduleState) {
    t == s.(active := t.active, nextDate := t.nextDate, retriesDone := t.retriesDone,
            lastResult := t.lastResult, lastAttempt := t.lastAttempt)
  }

  const DefaultName := "AutoPay"
  const PendingResult := "Pending"

  class PaymentSchedule {
    var sourceAccount: string
    var destinationId: string
    var amount: real
    var periodicity: Periodicity
    var nextDate: Date
    var name: string
    var memo: Option<string>
    var dayOfMonth: Option<int>
    var startDate: Date
    var endDate: Option<Date>
    var active: bool
    var maxRetries: int
    var retryEveryDays: int
    var retriesDone: int
    var lastResult: string
    var lastAttempt: Option<Date>

    function State(): ScheduleState
      reads this
    {
      ScheduleState(sourceAccount, destinationId, amount, periodicity, nextDate, name, memo, dayOfMonth,
        startDate, endDate, active, maxRetries, retryEveryDays, retriesDone, lastResult, lastAttempt)
    }

    ghost predicate Valid()
      reads this
    {
      WellFormed(State())
    }

    /**
     * A schedule with every field at its default: monthly, due a month from
     * today (so strictly after today), active, pending, no retries, retried
     * daily, with no day of month, end date, memo or last attempt.
     */
    constructor (today: Date)
      ensures Valid()
      ensures sourceAccount == "" && destinationId == "" && amount == 0.0
      ensures periodicity == Monthly && nextDate == AddMonths(today, 1) && nextDate > today
      ensures name == DefaultName && memo.None? && dayOfMonth.None?
      ensures startDate == today && endDate.None?
      ensures active && maxRetries == 0 && retryEveryDays == 1 && retriesDone == 0
      ensures lastResult == PendingResult && lastAttempt.None?
    {
      sourceAccount := "";
      destinationId := "";
      amount := 0.0;
      periodicity := Monthly;
      nextDate := AddMonths(today, 1);
      name := DefaultName;
      memo := None;
      dayOfMonth := None;
      startDate := today;
      endDate := None;
      active := true;
      maxRetries := 0;
      retryEveryDays := 1;
      retriesDone := 0;
      lastResult := PendingResult;
      lastAttempt := None;
      AddOneMonthIsLater(today);
    }

    /** `new PaymentSchedule { ... }` with every field given by the initializer. */
    constructor Init(s: ScheduleState)
      requires WellFormed(s)
      ensures Valid()
      ensures State() == s
    {
      sourceAccount, destinationId, amount, periodicity, nextDate := s.sourceAccount, s.destinationId, s.amount, s.periodicity, s.nextDate;
      name, memo, dayOfMonth, startDate, endDate := s.name, s.memo, s.dayOfMonth, s.startDate, s.endDate;
      active, maxRetries, retryEveryDays, retriesDone := s.active, s.maxRetries, s.retryEveryDays, s.retriesDone;
      lastResult, lastAttempt := s.lastResult, s.lastAttempt;
    }

    /** The fields a scheduler run writes, written at once as they stand after one pass of its loop. */
    method RecordRun(t: ScheduleState)
      requires WellFormed(t) && SameSetup(State(), t)
      modifies this
      ensures Valid()
      ensures State() == t
    {
      active, nextDate, retriesDone, lastResult, lastAttempt := t.active, t.nextDate, t.retriesDone, t.lastResult, t.lastAttempt;
    }
  }
}
