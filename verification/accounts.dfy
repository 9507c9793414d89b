/**
 * The account state machine: Domain/AccountBase.cs and its variants
 * SavingsAccount, CheckingAccount and CertificateOfDeposit. The variants are
 * one class tagged with its kind; each operation's effect on the changing
 * fields is given by a function on AccountState, which the methods are proved
 * against.
 */
module Accounts {
  import opened Wrappers
  import opened Domain
  import opened Dates
  import opened InterestStrategies
  import opened Ids

  /** The variant, with the fields the CD fixes at construction. */
  datatype AccountKind = Savings | Checking | CertificateOfDeposit(termMonths: int, openDate: Date)

  /** The fields of an account that its operations change. */
  datatype AccountState = AccountState(
    status: AccountStatus,
    balance: real,
    transactions: seq<Transaction>,
    withdrawalsThisMonth: int,  // SavingsAccount.WithdrawalsThisMonth; 0 for the other variants
    overdraftLimit: real)       // CheckingAccount.OverdraftLimit; unused by the other variants

  const DefaultOverdraftLimit: real := 200.0
  const DefaultCdTermMonths: int := 12

  /** The state of a newly constructed account. */
  const Opened := AccountState(Active, 0.0, [], 0, DefaultOverdraftLimit)

  /**
   * What every operation keeps true of an account: the balance is what the
   * transaction list adds up to, a savings account stays within its monthly
   * withdrawal cap, and savings and CD balances never go negative.
   */
  predicate Consistent(kind: AccountKind, s: AccountState) {
    && s.balance == Net(s.transactions)
    && (kind.Savings? ==> 0 <= s.withdrawalsThisMonth <= SavingsMonthlyWithdrawalLimit)
    && (!kind.Savings? ==> s.withdrawalsThisMonth == 0)
    && (!kind.Checking? ==> s.balance >= 0.0)
  }

  /** HasSufficientFunds: overdraft floor for checking, no overdraft for the others. */
  predicate SufficientFunds(kind: AccountKind, s: AccountState, amount: real) {
    if kind.Checking? then s.balance - amount >= -s.overdraftLimit else s.balance - amount >= 0.0
  }

  /** Whether AccountBase.Deposit succeeds. */
  predicate CanDeposit(s: AccountState, amount: real) {
    s.status == Active && amount > 0.0
  }

  /** The state after a successful deposit. */
  function AfterDeposit(s: AccountState, amount: real): AccountState {
    s.(balance := s.balance + amount, transactions := s.transactions + [Transaction(Deposit, amount, "Depósito")])
  }

  /** Whether AccountBase.Withdraw (the base rule) succeeds. */
  predicate CanBaseWithdraw(kind: AccountKind, s: AccountState, amount: real) {
    s.status == Active && amount > 0.0 && SufficientFunds(kind, s, amount)
  }

  /** The state after a successful base withdrawal. */
  function AfterBaseWithdraw(s: AccountState, amount: real): AccountState {
    s.(balance := s.balance - amount, transactions := s.transactions + [Transaction(Withdrawal, amount, "Retiro")])
  }

  /** A CD withdrawal taken before `termMonths * 30` days since opening. */
  predicate IsEarly(kind: AccountKind, today: Date) {
    kind.CertificateOfDeposit? && today - kind.openDate < kind.termMonths * 30
  }

  function Penalty(amount: real): real {
    amount * CdEarlyWithdrawalPenaltyRate
  }

  /** Whether the variant's Withdraw succeeds. */
  predicate CanWithdraw(kind: AccountKind, s: AccountState, amount: real, today: Date) {
    match kind
    case Savings => s.withdrawalsThisMonth < SavingsMonthlyWithdrawalLimit && CanBaseWithdraw(kind, s, amount)
    case Checking => CanBaseWithdraw(kind, s, amount)
    case CertificateOfDeposit(_, _) =>
      if IsEarly(kind, today) then SufficientFunds(kind, s, amount + Penalty(amount))
      else CanBaseWithdraw(kind, s, amount)
  }

  /** The state after a successful withdrawal from the variant. */
  function AfterWithdraw(kind: AccountKind, s: AccountState, amount: real, today: Date): AccountState {
    match kind
    case Savings => AfterBaseWithdraw(s, amount).(withdrawalsThisMonth := s.withdrawalsThisMonth + 1)
    case Checking => AfterBaseWithdraw(s, amount)
    case CertificateOfDeposit(_, _) =>
      if IsEarly(kind, today) then
        var penalty := Penalty(amount);
        s.(balance := s.balance - (amount + penalty),
           transactions := s.transactions + [Transaction(Withdrawal, amount, "Retiro CD (anticipado)"), Transaction(Fee, penalty, "Penalidad retiro CD")])
      else AfterBaseWithdraw(s, amount)
  }

  /** What an interest strategy does to an account: write the private balance directly and append `t`, without any guard. */
  function Post(s: AccountState, t: Transaction): AccountState {
    s.(balance := s.balance + Signed(t), transactions := s.transactions + [t])
  }

  /** The state after ApplyInterest: the strategy's posting, then the savings counter reset on the 1st of a month. */
  function AfterInterest(kind: AccountKind, strategy: Option<InterestStrategy>, s: AccountState, date: Date, monthly: bool): AccountState {
    var posted :=
      if strategy.None? then s
      else match Accrual(strategy.value, s.balance, monthly)
        case None => s
        case Some(t) => Post(s, t);
    if kind.Savings? && monthly && Day(date) == 1 then posted.(withdrawalsThisMonth := 0) else posted
  }

  /** The strategy a variant is given by the account factory. */
  function StrategyFor(kind: AccountKind): InterestStrategy {
    match kind
    case Savings => SavingsInterest
    case Checking => CheckingInterest
    case CertificateOfDeposit(_, _) => CdInterest
  }

  // ---------------------------------------------------------------------------
  // Properties of the account operations

  /** A new account is Active with balance 0, no transactions, and is consistent. */
  lemma OpenedIsConsistent(kind: AccountKind)
    ensures Opened.status == Active && Opened.balance == 0.0 && Opened.transactions == []
    ensures Consistent(kind, Opened)
  {
  }

  /**
   * Deposit succeeds exactly when the account is Active and the amount positive;
   * it then raises the balance by the amount and appends one Deposit entry,
   * leaving earlier entries as they were.
   */
  lemma DepositEffect(s: AccountState, amount: real)
    ensures CanDeposit(s, amount) <==> s.status == Active && amount > 0.0
    ensures var s' := AfterDeposit(s, amount);
      && s'.balance == s.balance + amount
      && |s'.transactions| == |s.transactions| + 1
      && s'.transactions[..|s.transactions|] == s.transactions
      && s'.transactions[|s.transactions|].kind == Deposit
      && s'.transactions[|s.transactions|].amount == amount
      && s'.status == s.status && s'.withdrawalsThisMonth == s.withdrawalsThisMonth
  {
  }

  /** A successful deposit keeps the account consistent. */
  lemma {:induction false} DepositKeepsConsistent(kind: AccountKind, s: AccountState, amount: real)
    requires Consistent(kind, s) && CanDeposit(s, amount)
    ensures Consistent(kind, AfterDeposit(s, amount))
  {
    NetAppend(s.transactions, [Transaction(Deposit, amount, "Depósito")]);
  }

  /** The base rule: Withdraw fails when the account is not Active, the amount is not positive, or funds are short. */
  lemma BaseWithdrawEffect(kind: AccountKind, s: AccountState, amount: real, today: Date)
    requires !kind.Savings? && !IsEarly(kind, today)
    ensures CanWithdraw(kind, s, amount, today) <==> s.status == Active && amount > 0.0 && SufficientFunds(kind, s, amount)
    ensures var s' := AfterWithdraw(kind, s, amount, today);
      && s'.balance == s.balance - amount
      && s'.transactions == s.transactions + [Transaction(Withdrawal, amount, "Retiro")]
      && s'.status == s.status && s'.withdrawalsThisMonth == s.withdrawalsThisMonth
  {
  }

  /** A successful withdrawal keeps the account consistent. */
  lemma {:induction false} WithdrawKeepsConsistent(kind: AccountKind, s: AccountState, amount: real, today: Date)
    requires Consistent(kind, s) && CanWithdraw(kind, s, amount, today)
    ensures Consistent(kind, AfterWithdraw(kind, s, amount, today))
  {
    if IsEarly(kind, today) {
      var penalty := Penalty(amount);
      NetAppend(s.transactions, [Transaction(Withdrawal, amount, "Retiro CD (anticipado)"), Transaction(Fee, penalty, "Penalidad retiro CD")]);
      assert Net([Transaction(Withdrawal, amount, "Retiro CD (anticipado)"), Transaction(Fee, penalty, "Penalidad retiro CD")]) == -(amount + penalty) by {
        var two := [Transaction(Withdrawal, amount, "Retiro CD (anticipado)"), Transaction(Fee, penalty, "Penalidad retiro CD")];
        assert two[..1] == [two[0]];
        assert [two[0]][..0] == [];
      }
    } else {
      NetAppend(s.transactions, [Transaction(Withdrawal, amount, "Retiro")]);
    }
  }

  /** Savings: once six withdrawals were taken this month, Withdraw fails whatever the balance. */
  lemma SavingsCapReached(s: AccountState, amount: real, today: Date)
    requires s.withdrawalsThisMonth >= SavingsMonthlyWithdrawalLimit
    ensures !CanWithdraw(Savings, s, amount, today)
  {
  }

  /**
   * Savings: a withdrawal succeeds exactly when the cap is not reached, the
   * account is Active, the amount positive and covered by the balance; it then
   * uses up one monthly slot.
   */
  lemma SavingsWithdrawEffect(s: AccountState, amount: real, today: Date)
    ensures CanWithdraw(Savings, s, amount, today) <==>
      s.withdrawalsThisMonth < 6 && s.status == Active && amount > 0.0 && s.balance - amount >= 0.0
    ensures AfterWithdraw(Savings, s, amount, today).withdrawalsThisMonth == s.withdrawalsThisMonth + 1
    ensures AfterWithdraw(Savings, s, amount, today).balance == s.balance - amount
  {
  }

  /** Checking: a successful withdrawal leaves the balance at or above minus the overdraft limit in force. */
  lemma CheckingWithdrawFloor(s: AccountState, amount: real, today: Date)
    ensures CanWithdraw(Checking, s, amount, today) <==>
      s.status == Active && amount > 0.0 && s.balance - amount >= -s.overdraftLimit
    ensures CanWithdraw(Checking, s, amount, today) ==>
      AfterWithdraw(Checking, s, amount, today).balance >= -s.overdraftLimit
  {
  }

  /** Checking with the default limit, from balance 0: 200 can be withdrawn (leaving -200), 200.01 cannot. */
  lemma CheckingOverdraftBoundary(today: Date)
    ensures CanWithdraw(Checking, Opened, 200.0, today)
    ensures AfterWithdraw(Checking, Opened, 200.0, today).balance == -200.0
    ensures !CanWithdraw(Checking, Opened, 200.01, today)
  {
  }

  /**
   * CD before the end of its term: a successful withdrawal takes the amount
   * plus a 2% penalty and appends a Withdrawal then a Fee entry; it fails when
   * the balance cannot cover both.
   */
  lemma CdEarlyWithdrawEffect(kind: AccountKind, s: AccountState, amount: real, today: Date)
    requires kind.CertificateOfDeposit? && today - kind.openDate < kind.termMonths * 30
    ensures CanWithdraw(kind, s, amount, today) <==> s.balance - amount * 1.02 >= 0.0
    ensures var s' := AfterWithdraw(kind, s, amount, today);
      && s'.balance == s.balance - amount * 1.02
      && s'.transactions == s.transactions + [Transaction(Withdrawal, amount, "Retiro CD (anticipado)"), Transaction(Fee, amount * 0.02, "Penalidad retiro CD")]
      && s'.status == s.status
  {
  }

  /** CD on or after the end of its term: the base withdrawal, with no fee. */
  lemma CdMatureWithdrawEffect(kind: AccountKind, s: AccountState, amount: real, today: Date)
    requires kind.CertificateOfDeposit? && today - kind.openDate >= kind.termMonths * 30
    ensures CanWithdraw(kind, s, amount, today) <==> s.status == Active && amount > 0.0 && s.balance - amount >= 0.0
    ensures AfterWithdraw(kind, s, amount, today) == AfterBaseWithdraw(s, amount)
  {
  }

  /** No successful withdrawal from a savings account or a CD leaves a negative balance. */
  lemma WithdrawNeverOverdrawsWithoutOverdraft(kind: AccountKind, s: AccountState, amount: real, today: Date)
    requires !kind.Checking? && CanWithdraw(kind, s, amount, today)
    ensures AfterWithdraw(kind, s, amount, today).balance >= 0.0
  {
  }

  /**
   * The early CD branch checks neither the status nor the sign of the amount:
   * a Frozen CD still pays out early, and a negative amount raises the balance.
   */
  lemma CdEarlyBranchSkipsGuards(today: Date)
    ensures var kind := CertificateOfDeposit(12, today);
      var frozen := AccountState(Frozen, 1000.0, [], 0, DefaultOverdraftLimit);
      && CanWithdraw(kind, frozen, 100.0, today)
      && AfterWithdraw(kind, frozen, 100.0, today).balance == 898.0
      && CanWithdraw(kind, frozen, -100.0, today)
      && AfterWithdraw(kind, frozen, -100.0, today).balance == 1102.0
  {
  }

  /** A failed withdrawal from a Frozen or Closed savings account uses up no monthly slot. */
  lemma InactiveSavingsWithdrawFails(s: AccountState, amount: real, today: Date)
    requires s.status != Active
    ensures !CanWithdraw(Savings, s, amount, today)
  {
  }

  /** ApplyInterest with no strategy attached changes nothing but the savings counter reset. */
  lemma NoStrategyNoInterest(kind: AccountKind, s: AccountState, date: Date, monthly: bool)
    ensures !kind.Savings? ==> AfterInterest(kind, None, s, date, monthly) == s
    ensures kind.Savings? ==> AfterInterest(kind, None, s, date, monthly).(withdrawalsThisMonth := s.withdrawalsThisMonth) == s
  {
  }

  /** Savings: ApplyInterest resets the withdrawal counter exactly on a monthly run dated the 1st. */
  lemma SavingsCounterReset(strategy: Option<InterestStrategy>, s: AccountState, date: Date, monthly: bool)
    ensures AfterInterest(Savings, strategy, s, date, monthly).withdrawalsThisMonth ==
      if monthly && Day(date) == 1 then 0 else s.withdrawalsThisMonth
  {
  }

  /** Interest and fees ignore the account's status: a Frozen savings account still earns interest. */
  lemma InterestIgnoresStatus(s: AccountState, date: Date, monthly: bool)
    requires s.status == Frozen && s.balance > 0.0
    ensures AfterInterest(Savings, Some(SavingsInterest), s, date, monthly).balance > s.balance
  {
    AccrualOfInterest(SavingsInterest, s.balance, monthly);
  }

  /** The overdraft fee is not bound by the overdraft limit: a checking account at -200 goes to -203 in a month. */
  lemma OverdraftFeeCanPassLimit(s: AccountState, date: Date)
    requires s.balance == -200.0 && s.overdraftLimit == 200.0
    ensures AfterInterest(Checking, Some(CheckingInterest), s, date, true).balance == -203.0
  {
  }

  /** Applying interest keeps an account consistent, as long as it carries its own variant's strategy. */
  lemma {:induction false} InterestKeepsConsistent(kind: AccountKind, strategy: Option<InterestStrategy>, s: AccountState, date: Date, monthly: bool)
    requires Consistent(kind, s)
    requires strategy.Some? ==> strategy.value == StrategyFor(kind)
    ensures Consistent(kind, AfterInterest(kind, strategy, s, date, monthly))
  {
    if strategy.Some? {
      match Accrual(strategy.value, s.balance, monthly)
      case None =>
      case Some(t) =>
        NetAppend(s.transactions, [t]);
        if !kind.Checking? {
          AccrualKeepsNonNegative(strategy.value, s.balance, monthly);
        }
    }
  }

  // ---------------------------------------------------------------------------
  // The account object

  class Account {
    const number: string
    const customerId: int
    const currency: string
    const kind: AccountKind
    const interestStrategy: Option<InterestStrategy>
    var status: AccountStatus
    var balance: real
    var transactions: seq<Transaction>
    var withdrawalsThisMonth: int
    var overdraftLimit: real

    function State(): AccountState
      reads this
    {
      AccountState(status, balance, transactions, withdrawalsThisMonth, overdraftLimit)
    }

    ghost predicate Valid()
      reads this
    {
      Consistent(kind, State()) && (interestStrategy.Some? ==> interestStrategy.value == StrategyFor(kind))
    }

    /** AccountBase's constructor: draws the next account number and opens the account Active and empty. */
    constructor (ids: IdGenerator, customerId: int, currency: string, kind: AccountKind, interestStrategy: Option<InterestStrategy>)
      requires interestStrategy.Some? ==> interestStrategy.value == StrategyFor(kind)
      modifies ids
      ensures Valid()
      ensures number == AccountNumberFor(old(ids.accountSeq))
      ensures ids.accountSeq == old(ids.accountSeq) + 1 && ids.customerSeq == old(ids.customerSeq)
      ensures this.customerId == customerId && this.currency == currency
      ensures this.kind == kind && this.interestStrategy == interestStrategy
      ensures State() == Opened
    {
      var n := ids.NewAccountNumber();
      number := n;
      this.customerId := customerId;
      this.currency := currency;
      this.kind := kind;
      this.interestStrategy := interestStrategy;
      status := Active;
      balance := 0.0;
      transactions := [];
      withdrawalsThisMonth := 0;
      overdraftLimit := DefaultOverdraftLimit;
    }

    /** SetStatus: any status, unconditionally; nothing else changes. */
    method SetStatus(newStatus: AccountStatus)
      requires Valid()
      modifies this
      ensures Valid()
      ensures State() == old(State()).(status := newStatus)
    {
      status := newStatus;
    }

    /** The OverdraftLimit setter of a checking account. */
    method SetOverdraftLimit(limit: real)
      requires Valid() && kind.Checking?
      modifies this
      ensures Valid()
      ensures State() == old(State()).(overdraftLimit := limit)
    {
      overdraftLimit := limit;
    }

    /** AccountBase.Deposit. */
    method Deposit(amount: real) returns (ok: bool)
      requires Valid()
      modifies this
      ensures Valid()
      ensures ok == CanDeposit(old(State()), amount)
      ensures State() == if ok then AfterDeposit(old(State()), amount) else old(State())
    {
      if status != Active || amount <= 0.0 {
        return false;
      }
      DepositKeepsConsistent(kind, State(), amount);
      balance := balance + amount;
      transactions := transactions + [Transaction(TransactionType.Deposit, amount, "Depósito")];
      return true;
    }

    /** AccountBase.Withdraw, the base rule the variants fall back on. */
    method BaseWithdraw(amount: real) returns (ok: bool)
      modifies this
      ensures ok == CanBaseWithdraw(kind, old(State()), amount)
      ensures State() == if ok then AfterBaseWithdraw(old(State()), amount) else old(State())
    {
      if status != Active || amount <= 0.0 {
        return false;
      }
      if !SufficientFunds(kind, State(), amount) {
        return false;
      }
      balance := balance - amount;
      transactions := transactions + [Transaction(Withdrawal, amount, "Retiro")];
      return true;
    }

    /** Withdraw as each variant overrides it: the savings cap, the CD early-withdrawal penalty, or the base rule. */
    method Withdraw(amount: real, today: Date) returns (ok: bool)
      requires Valid()
      modifies this
      ensures Valid()
      ensures ok == CanWithdraw(kind, old(State()), amount, today)
      ensures State() == if ok then AfterWithdraw(kind, old(State()), amount, today) else old(State())
    {
      ghost var before := State();
      match kind {
        case Savings =>
          if withdrawalsThisMonth >= SavingsMonthlyWithdrawalLimit {
            return false;
          }
          ok := BaseWithdraw(amount);
          if ok {
            withdrawalsThisMonth := withdrawalsThisMonth + 1;
          }
        case Checking =>
          ok := BaseWithdraw(amount);
        case CertificateOfDeposit(termMonths, openDate) =>
          if today - openDate < termMonths * 30 {
            var penalty := amount * CdEarlyWithdrawalPenaltyRate;
            var total := amount + penalty;
            if !SufficientFunds(kind, State(), total) {
              return false;
            }
            balance := balance - total;
            transactions := transactions + [Transaction(Withdrawal, amount, "Retiro CD (anticipado)"), Transaction(Fee, penalty, "Penalidad retiro CD")];
            ok := true;
          } else {
            ok := BaseWithdraw(amount);
          }
      }
      if ok {
        WithdrawKeepsConsistent(kind, before, amount, today);
      }
    }

    /** ProcessPayment (IPayable): exactly a withdrawal of the amount; the date is not used. */
    method ProcessPayment(amount: real, date: Date, today: Date) returns (ok: bool)
      requires Valid()
      modifies this
      ensures Valid()
      ensures ok == CanWithdraw(kind, old(State()), amount, today)
      ensures State() == if ok then AfterWithdraw(kind, old(State()), amount, today) else old(State())
    {
      ok := Withdraw(amount, today);
    }

    /** The strategies' direct write of the private balance plus their ledger entry: posts `t` with no guard at all. */
    method AdjustBalance(t: Transaction)
      modifies this
      ensures State() == Post(old(State()), t)
    {
      balance := balance + Signed(t);
      transactions := transactions + [t];
    }

    /** ApplyInterest: the attached strategy's Apply, then (savings only) the monthly counter reset. */
    method ApplyInterest(date: Date, monthly: bool)
      requires Valid()
      modifies this
      ensures Valid()
      ensures State() == AfterInterest(kind, interestStrategy, old(State()), date, monthly)
    {
      InterestKeepsConsistent(kind, interestStrategy, State(), date, monthly);
      if interestStrategy.Some? {
        var posting := Accrual(interestStrategy.value, balance, monthly);
        if posting.Some? {
          AdjustBalance(posting.value);
        }
      }
      if kind.Savings? && monthly && Day(date) == 1 {
        withdrawalsThisMonth := 0;
      }
    }
  }
}
