/**
 * Services/InterestStrategies.cs: what each strategy's Apply posts to an
 * account. The posting itself (the balance write and the appended entry) is
 * Accounts.Account.AdjustBalance.
 */
module InterestStrategies {
  import opened Wrappers
  import opened Domain

  datatype InterestStrategy = SavingsInterest | CheckingInterest | CdInterest

  function Abs(x: real): real { if x < 0.0 then -x else x }

  /** The transaction Apply posts for an account holding `balance`, or None when it changes nothing. */
  function Accrual(strategy: InterestStrategy, balance: real, monthly: bool): Option<Transaction> {
    match strategy
    case SavingsInterest =>
      var rate := if monthly then SavingsMonthlyRate else SavingsDailyRate;
      var interest := balance * rate;
      if interest > 0.0 then Some(Transaction(Interest, interest, if monthly then "Interés mensual" else "Interés diario"))
      else None
    case CheckingInterest =>
      if balance < 0.0 then
        var rate := if monthly then CheckingOverdraftMonthlyRate else CheckingOverdraftDailyRate;
        var fee := Abs(balance) * rate;
        Some(Transaction(Fee, fee, "Cargo sobregiro"))
      else None
    case CdInterest =>
      var rate := if monthly then CdMonthlyRate else CdDailyRate;
      var interest := balance * rate;
      if interest > 0.0 then Some(Transaction(Interest, interest, if monthly then "Interés CD mensual" else "Interés CD diario"))
      else None
  }

  /** The rate a strategy applies for the chosen period. */
  function RateOf(strategy: InterestStrategy, monthly: bool): (r: real)
    ensures r > 0.0
  {
    match strategy
    case SavingsInterest => if monthly then SavingsMonthlyRate else SavingsDailyRate
    case CheckingInterest => if monthly then CheckingOverdraftMonthlyRate else CheckingOverdraftDailyRate
    case CdInterest => if monthly then CdMonthlyRate else CdDailyRate
  }

  /**
   * Savings and CD interest is posted exactly when the balance is positive, as
   * one Interest entry of balance times the period's rate, which the balance gains.
   */
  lemma AccrualOfInterest(strategy: InterestStrategy, balance: real, monthly: bool)
    requires strategy != CheckingInterest
    ensures Accrual(strategy, balance, monthly).Some? <==> balance > 0.0
    ensures balance > 0.0 ==>
      var t := Accrual(strategy, balance, monthly).value;
      t.kind == Interest && t.amount == balance * RateOf(strategy, monthly) && Signed(t) > 0.0
  {
    var rate := RateOf(strategy, monthly);
    if balance > 0.0 {
      assert balance * rate > 0.0;
    } else {
      assert balance * rate <= 0.0;
    }
  }

  /**
   * Checking is charged exactly when overdrawn: one Fee entry of the overdraft
   * times the period's rate, which the balance loses.
   */
  lemma AccrualOfOverdraftFee(balance: real, monthly: bool)
    ensures Accrual(CheckingInterest, balance, monthly).Some? <==> balance < 0.0
    ensures balance < 0.0 ==>
      var t := Accrual(CheckingInterest, balance, monthly).value;
      && t.kind == Fee && t.amount == -balance * RateOf(CheckingInterest, monthly)
      && balance + Signed(t) < balance
  {
    if balance < 0.0 {
      var rate := RateOf(CheckingInterest, monthly);
      assert Abs(balance) * rate > 0.0;
    }
  }

  /** Interest on savings and CDs never makes a balance negative; it is only ever added to a positive one. */
  lemma AccrualKeepsNonNegative(strategy: InterestStrategy, balance: real, monthly: bool)
    requires strategy != CheckingInterest
    requires balance >= 0.0
    ensures Accrual(strategy, balance, monthly).Some? ==> balance + Signed(Accrual(strategy, balance, monthly).value) > 0.0
  {
    AccrualOfInterest(strategy, balance, monthly);
  }
}
