/**
 * The loan state machine (Domain/LoanBase.cs) and its variants. The variants
 * differ only in the annual rate their constructor fixes; they are one class
 * tagged with its kind.
 */
module Loans {
  import opened Wrappers
  import opened Domain
  import opened Dates

  datatype LoanKind = Personal | Mortgage | Auto

  /** The annual rate each variant's constructor assigns, from the rate catalog. */
  function AnnualRateOf(kind: LoanKind): (rate: real)
    ensures rate > 0.0
  {
    match kind
    case Personal => PersonalLoanAPR
    case Mortgage => MortgageAPR
    case Auto => AutoLoanAPR
  }

  /** The fields of a loan that its operations change. */
  datatype LoanState = LoanState(
    principal: real,
    status: LoanStatus,
    missedPayments: int,
    lastPaymentDate: Option<Date>)

  /** The state of a newly constructed loan. */
  function Fresh(principal: real): LoanState {
    LoanState(principal, Current, 0, None)
  }

  /** The missed-payment counter and the status agree. */
  predicate InGoodStanding(s: LoanState) {
    && s.missedPayments >= 0
    && (s.status == Current ==> s.missedPayments == 0)
    && (s.status == PaidOff ==> s.missedPayments == 0 && s.principal == 0.0)
    && (s.status == Delinquent ==> 1 <= s.missedPayments < 3)
    && (s.status == Defaulted ==> s.missedPayments >= 3)
  }

  /** The state after ProcessPayment: principal clamped at zero, counter cleared, status from the principal. */
  function Paid(s: LoanState, amount: real, date: Date): LoanState {
    var principal := if s.principal - amount > 0.0 then s.principal - amount else 0.0;
    LoanState(principal, if principal == 0.0 then PaidOff else Current, 0, Some(date))
  }

  /** The state after RegisterMissedPayment. */
  function Missed(s: LoanState): LoanState {
    if s.status == PaidOff then s
    else
      var missed := s.missedPayments + 1;
      s.(missedPayments := missed, status := if missed >= 3 then Defaulted else Delinquent)
  }

  /**
   * The installment when the monthly rate is zero; None where the decimal
   * division throws. No catalog rate is zero (CatalogRatesAreNonZero), so
   * CalculateInstallment never takes this branch for a loan the factory makes.
   */
  function ZeroRateInstallment(principal: real, termMonths: int): (r: Option<real>)
    ensures r.None? <==> termMonths == 0
    ensures r.Some? ==> r.value * termMonths as real == principal
  {
    if termMonths == 0 then None else Some(principal / termMonths as real)
  }

  datatype AmortRow = AmortRow(payment: real, interestPortion: real, principalPortion: real, remainingBalance: real)

  /**
   * The rows of the amortization table for `remaining` more months from
   * `balance`: each month pays interest on the balance and the rest of the
   * payment off the principal; the last month pays off whatever is left.
   */
  function Amortization(balance: real, monthlyRate: real, payment: real, remaining: nat): seq<AmortRow>
    decreases remaining
  {
    if remaining == 0 then []
    else
      var interest := balance * monthlyRate;
      var principalPortion := payment - interest;
      var after := balance - principalPortion;
      if remaining == 1 then [AmortRow(payment + after, interest, principalPortion + after, 0.0)]
      else [AmortRow(payment, interest, principalPortion, after)] + Amortization(after, monthlyRate, payment, remaining - 1)
  }

  function SumPrincipal(rows: seq<AmortRow>): real {
    if rows == [] then 0.0 else rows[0].principalPortion + SumPrincipal(rows[1..])
  }

  /** The table has one row per month, and every row's payment is its interest plus its principal portion. */
  lemma {:induction false} AmortizationRows(balance: real, monthlyRate: real, payment: real, months: nat)
    ensures var rows := Amortization(balance, monthlyRate, payment, months);
      && |rows| == months
      && (forall j :: 0 <= j < months ==> rows[j].payment == rows[j].interestPortion + rows[j].principalPortion)
      && (forall j :: 0 <= j < months - 1 ==> rows[j].payment == payment)
    decreases months
  {
    if months > 1 {
      var after := balance - (payment - balance * monthlyRate);
      AmortizationRows(after, monthlyRate, payment, months - 1);
      var rows := Amortization(balance, monthlyRate, payment, months);
      var rest := Amortization(after, monthlyRate, payment, months - 1);
      assert forall j :: 0 < j < months ==> rows[j] == rest[j - 1];
    }
  }

  /** Row `j` of the table charges interest on what row `j - 1` left, and leaves that less its own principal portion. */
  lemma {:induction false} AmortizationLink(balance: real, monthlyRate: real, payment: real, months: nat, j: nat)
    requires 0 < j < months
    ensures var rows := Amortization(balance, monthlyRate, payment, months);
      && |rows| == months
      && rows[j].interestPortion == rows[j - 1].remainingBalance * monthlyRate
      && rows[j].remainingBalance == rows[j - 1].remainingBalance - rows[j].principalPortion
    decreases months
  {
    AmortizationRows(balance, monthlyRate, payment, months);
    var after := balance - (payment - balance * monthlyRate);
    var rows := Amortization(balance, monthlyRate, payment, months);
    var rest := Amortization(after, monthlyRate, payment, months - 1);
    assert rows == [rows[0]] + rest;
    if j == 1 {
      assert rows[0].remainingBalance == after;
      assert rows[1] == rest[0];
    } else {
      AmortizationLink(after, monthlyRate, payment, months - 1, j - 1);
      assert rows[j] == rest[j - 1] && rows[j - 1] == rest[j - 2];
    }
  }

  /**
   * Interest is charged on the balance the previous row left (the loan's
   * balance for the first row), and each row's remaining balance is that
   * balance less the row's principal portion.
   */
  lemma AmortizationChain(balance: real, monthlyRate: real, payment: real, months: nat)
    requires months > 0
    ensures var rows := Amortization(balance, monthlyRate, payment, months);
      && |rows| == months
      && rows[0].interestPortion == balance * monthlyRate
      && rows[0].remainingBalance == balance - rows[0].principalPortion
      && (forall j :: 0 < j < months ==> rows[j].interestPortion == rows[j - 1].remainingBalance * monthlyRate)
      && (forall j :: 0 < j < months ==> rows[j].remainingBalance == rows[j - 1].remainingBalance - rows[j].principalPortion)
  {
    AmortizationRows(balance, monthlyRate, payment, months);
    forall j | 0 < j < months
      ensures var rows := Amortization(balance, monthlyRate, payment, months);
        && rows[j].interestPortion == rows[j - 1].remainingBalance * monthlyRate
        && rows[j].remainingBalance == rows[j - 1].remainingBalance - rows[j].principalPortion
    {
      AmortizationLink(balance, monthlyRate, payment, months, j);
    }
  }

  /** The last row leaves nothing owing, whatever the installment. */
  lemma {:induction false} AmortizationEndsAtZero(balance: real, monthlyRate: real, payment: real, months: nat)
    requires months > 0
    ensures var rows := Amortization(balance, monthlyRate, payment, months);
      |rows| == months && rows[months - 1].remainingBalance == 0.0
    decreases months
  {
    AmortizationRows(balance, monthlyRate, payment, months);
    if months > 1 {
      var after := balance - (payment - balance * monthlyRate);
      AmortizationEndsAtZero(after, monthlyRate, payment, months - 1);
      var rows := Amortization(balance, monthlyRate, payment, months);
      assert rows[months - 1] == Amortization(after, monthlyRate, payment, months - 1)[months - 2];
    }
  }

  /** In exact arithmetic the principal portions add up to the amount borrowed, whatever the installment. */
  lemma {:induction false} AmortizationRepaysPrincipal(balance: real, monthlyRate: real, payment: real, months: nat)
    requires months > 0
    ensures SumPrincipal(Amortization(balance, monthlyRate, payment, months)) == balance
    decreases months
  {
    var interest := balance * monthlyRate;
    var after := balance - (payment - interest);
    var rows := Amortization(balance, monthlyRate, payment, months);
    if months > 1 {
      AmortizationRepaysPrincipal(after, monthlyRate, payment, months - 1);
      assert rows[1..] == Amortization(after, monthlyRate, payment, months - 1);
    } else {
      assert rows[1..] == [];
    }
  }

  // ---------------------------------------------------------------------------
  // Properties of payments and missed payments

  /**
   * ProcessPayment always succeeds; the principal drops by the amount but
   * never below zero, the counter is cleared, the date recorded, and the loan
   * is PaidOff exactly when nothing is left owing.
   */
  lemma PaymentEffect(s: LoanState, amount: real, date: Date)
    ensures var s' := Paid(s, amount, date);
      && s'.principal >= 0.0
      && (s'.principal == s.principal - amount || (s'.principal == 0.0 && s.principal - amount <= 0.0))
      && s'.missedPayments == 0
      && s'.lastPaymentDate == Some(date)
      && (s'.status == PaidOff <==> s'.principal == 0.0)
      && (s'.status != PaidOff ==> s'.status == Current)
  {
  }

  /** A payment of at least the principal pays the loan off. */
  lemma PaymentInFull(s: LoanState, amount: real, date: Date)
    requires amount >= s.principal
    ensures Paid(s, amount, date).status == PaidOff && Paid(s, amount, date).principal == 0.0
  {
  }

  /** A paid-off loan ignores missed payments; any other loan counts one more and escalates. */
  lemma MissedEffect(s: LoanState)
    ensures s.status == PaidOff ==> Missed(s) == s
    ensures s.status != PaidOff ==>
      && Missed(s).missedPayments == s.missedPayments + 1
      && (Missed(s).status == Defaulted <==> s.missedPayments + 1 >= 3)
      && (Missed(s).status != Defaulted ==> Missed(s).status == Delinquent)
      && Missed(s).principal == s.principal && Missed(s).lastPaymentDate == s.lastPaymentDate
  {
  }

  /** Both transitions keep the counter and the status in agreement. */
  lemma TransitionsKeepStanding(s: LoanState, amount: real, date: Date)
    requires InGoodStanding(s)
    ensures InGoodStanding(Paid(s, amount, date))
    ensures InGoodStanding(Missed(s))
  {
  }

  /** From a fresh loan: one and two misses make it Delinquent, the third Defaulted, and a payment clears the counter. */
  lemma Escalation(principal: real, amount: real, date: Date)
    requires principal > amount
    ensures Missed(Fresh(principal)).status == Delinquent
    ensures Missed(Missed(Fresh(principal))).status == Delinquent
    ensures Missed(Missed(Missed(Fresh(principal)))).status == Defaulted
    ensures Missed(Missed(Missed(Fresh(principal)))).missedPayments == 3
    ensures Paid(Missed(Missed(Missed(Fresh(principal)))), amount, date) == LoanState(principal - amount, Current, 0, Some(date))
  {
  }

  /** No rate in the catalog is zero, so the P/n branch of the installment never applies to any variant. */
  lemma CatalogRatesAreNonZero(kind: LoanKind)
    ensures AnnualRateOf(kind) / 12.0 != 0.0
    ensures kind == Mortgage ==> AnnualRateOf(kind) == 0.065
  {
  }

  // ---------------------------------------------------------------------------
  // The loan object

  class Loan {
    const loanId: string
    const customerId: int
    const kind: LoanKind
    const termMonths: int
    const currency: string
    const annualRate: real
    var principal: real
    var status: LoanStatus
    var missedPayments: int
    var lastPaymentDate: Option<Date>

    function State(): LoanState
      reads this
    {
      LoanState(principal, status, missedPayments, lastPaymentDate)
    }

    ghost predicate Valid()
      reads this
    {
      InGoodStanding(State()) && annualRate == AnnualRateOf(kind)
    }

    /**
     * The variant's constructor: stores the arguments unchanged and fixes the
     * variant's rate; the loan starts Current with nothing missed. The id
     * ("LN" and eight characters of a random GUID) is passed in.
     */
    constructor (loanId: string, customerId: int, kind: LoanKind, principal: real, termMonths: int, currency: string)
      ensures Valid()
      ensures this.loanId == loanId && this.customerId == customerId && this.kind == kind
      ensures this.termMonths == termMonths && this.currency == currency
      ensures annualRate == AnnualRateOf(kind)
      ensures State() == Fresh(principal)
    {
      this.loanId := loanId;
      this.customerId := customerId;
      this.kind := kind;
      this.termMonths := termMonths;
      this.currency := currency;
      annualRate := AnnualRateOf(kind);
      this.principal := principal;
      status := Current;
      missedPayments := 0;
      lastPaymentDate := None;
    }

    /** LoanBase.ProcessPayment; it always returns true. */
    method ProcessPayment(amount: real, date: Date) returns (ok: bool)
      requires Valid()
      modifies this
      ensures Valid()
      ensures ok
      ensures State() == Paid(old(State()), amount, date)
    {
      principal := if principal - amount > 0.0 then principal - amount else 0.0;
      lastPaymentDate := Some(date);
      status := if principal == 0.0 then PaidOff else Current;
      missedPayments := 0;
      ok := true;
    }

    /** LoanBase.RegisterMissedPayment. */
    method RegisterMissedPayment()
      requires Valid()
      modifies this
      ensures Valid()
      ensures State() == Missed(old(State()))
    {
      if status == PaidOff {
        return;
      }
      missedPayments := missedPayments + 1;
      status := if missedPayments >= 3 then Defaulted else Delinquent;
    }

    /**
     * GenerateAmortizationTable, with the installment passed in: one row per
     * month of the term (none for a term of zero or less), the last absorbing
     * whatever balance the installment leaves.
     */
    method GenerateAmortizationTable(payment: real) returns (rows: seq<AmortRow>)
      ensures rows == Amortization(principal, annualRate / 12.0, payment, Max(termMonths, 0))
    {
      var monthlyRate := annualRate / 12.0;
      var balance := principal;
      var pay := payment;
      var n := Max(termMonths, 0);
      rows := [];
      var i := 0;
      while i < termMonths
        invariant 0 <= i <= n
        invariant i < n ==> pay == payment
        invariant rows + Amortization(balance, monthlyRate, payment, n - i) == Amortization(principal, monthlyRate, payment, n)
      {
        var interest := balance * monthlyRate;
        var principalPortion := pay - interest;
        balance := balance - principalPortion;
        if i == termMonths - 1 && balance != 0.0 {
          pay := pay + balance;
          principalPortion := principalPortion + balance;
          balance := 0.0;
        }
        rows := rows + [AmortRow(pay, interest, principalPortion, balance)];
        i := i + 1;
      }
    }
  }

  /** A fresh loan missed three times defaults, and one payment brings it back to Current with the counter cleared. */
  method EscalationScenario(date: Date) returns (afterThird: LoanStatus, afterPayment: LoanStatus, missed: int)
    ensures afterThird == Defaulted
    ensures afterPayment == Current && missed == 0
  {
    var loan := new Loan("LN00000000", 1, Mortgage, 1000.0, 12, "USD");
    loan.RegisterMissedPayment();
    loan.RegisterMissedPayment();
    loan.RegisterMissedPayment();
    afterThird := loan.status;
    var _ := loan.ProcessPayment(100.0, date);
    afterPayment := loan.status;
    missed := loan.missedPayments;
  }
}
