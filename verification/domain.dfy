/**
 * Declarations shared by the ledger: the enumerations (Domain/Enums.cs), the
 * transaction record (Domain/Transaction.cs), and the fee and rate constants
 * (Domain/FeeSchedule.cs, Domain/RateCatalog.cs). Amounts are exact reals.
 */
module Domain {
  datatype AccountStatus = Active | Closed | Frozen

  datatype TransactionType = Deposit | Withdrawal | TransferOut | TransferIn | Fee | Interest

  datatype Periodicity = Daily | Monthly

  datatype LoanStatus = Current | Delinquent | Defaulted | PaidOff

  /** One entry of an account's transaction list; its id, timestamp and counterparty are not modelled. */
  datatype Transaction = Transaction(kind: TransactionType, amount: real, description: string)

  /** The sign a transaction of this type has in the account's balance. */
  predicate Credits(t: TransactionType) {
    t == Deposit || t == TransferIn || t == Interest
  }

  /** The change a transaction makes to the balance. */
  function Signed(t: Transaction): real {
    if Credits(t.kind) then t.amount else -t.amount
  }

  /** The balance the transaction list accounts for, starting from zero. */
  function Net(ts: seq<Transaction>): real {
    if ts == [] then 0.0 else Net(ts[..|ts| - 1]) + Signed(ts[|ts| - 1])
  }

  lemma NetAppend(ts: seq<Transaction>, more: seq<Transaction>)
    ensures Net(ts + more) == Net(ts) + Net(more)
    decreases |more|
  {
    if more != [] {
      var k := |more| - 1;
      assert (ts + more)[..|ts + more| - 1] == ts + more[..k];
      assert (ts + more)[|ts + more| - 1] == more[k];
      NetAppend(ts, more[..k]);
      assert Net(more) == Net(more[..k]) + Signed(more[k]);
    } else {
      assert ts + more == ts;
    }
  }

  // FeeSchedule
  const SavingsMonthlyWithdrawalLimit: int := 6
  const CdEarlyWithdrawalPenaltyRate: real := 0.02

  // RateCatalog
  const SavingsDailyRate: real := 0.01 / 365.0
  const SavingsMonthlyRate: real := 0.01 / 12.0
  const CdDailyRate: real := 0.03 / 365.0
  const CdMonthlyRate: real := 0.03 / 12.0
  const CheckingOverdraftDailyRate: real := 0.18 / 365.0
  const CheckingOverdraftMonthlyRate: real := 0.18 / 12.0
  const PersonalLoanAPR: real := 0.12
  const MortgageAPR: real := 0.065
  const AutoLoanAPR: real := 0.08
}

/** Domain/Money.cs: an amount tagged with its currency code. */
module Money {
  import opened Wrappers
  import opened Text

  datatype Money = Money(amount: real, currency: string)

  datatype MoneyError = CurrencyMismatch

  /** `operator +`: adds amounts of the same currency (compared ignoring case) and keeps the left operand's spelling. */
  function Plus(a: Money, b: Money): Result<Money, MoneyError> {
    if !EqualsIgnoreCase(a.currency, b.currency) then Err(CurrencyMismatch)
    else Ok(Money(a.amount + b.amount, a.currency))
  }

  /** Operand order does not change whether the addition succeeds or the amount it gives. */
  lemma PlusCommutesOnAmount(a: Money, b: Money)
    ensures Plus(a, b).Ok? <==> Plus(b, a).Ok?
    ensures Plus(a, b).Ok? ==> Plus(a, b).value.amount == Plus(b, a).value.amount
  {
    EqualsIgnoreCaseIsEquivalence(a.currency, b.currency, a.currency);
  }

  /** Three amounts of one currency add up the same way whichever pair is added first. */
  lemma PlusAssociates(a: Money, b: Money, c: Money)
    requires Plus(a, b).Ok? && Plus(b, c).Ok?
    ensures Plus(Plus(a, b).value, c).Ok? && Plus(a, Plus(b, c).value).Ok?
    ensures Plus(Plus(a, b).value, c).value == Plus(a, Plus(b, c).value).value
  {
    EqualsIgnoreCaseIsEquivalence(a.currency, b.currency, c.currency);
  }

  /** "usd" and "USD" are the same currency, and the sum is spelled "usd". */
  lemma PlusIgnoresCase()
    ensures Plus(Money(1.5, "usd"), Money(2.0, "USD")) == Ok(Money(3.5, "usd"))
  {
    assert EqualsIgnoreCase("usd", "USD") by {
      assert ToUpperAscii('u') == 'U' && ToUpperAscii('s') == 'S' && ToUpperAscii('d') == 'D';
    }
  }
}

/** Services/CurrencyConverter.cs: conversion through a fixed table of units per US dollar. */
module CurrencyConverter {
  import opened Wrappers
  import opened Text

  /** The table entry for a currency code, looked up ignoring case. */
  function UsdRate(code: string): (r: Option<real>)
    ensures r.Some? ==> r.value > 0.0
  {
    if EqualsIgnoreCase(code, "USD") then Some(1.0)
    else if EqualsIgnoreCase(code, "EUR") then Some(0.92)
    else if EqualsIgnoreCase(code, "JPY") then Some(151.0)
    else if EqualsIgnoreCase(code, "KRW") then Some(1380.0)
    else if EqualsIgnoreCase(code, "BOB") then Some(6.9)
    else if EqualsIgnoreCase(code, "GBP") then Some(0.78)
    else None
  }

  predicate Supported(code: string) {
    UsdRate(code).Some?
  }

  /** CurrencyConverter.Convert: null (None) unless both codes are in the table. */
  function Convert(amount: real, from: string, to: string): Option<real> {
    if !Supported(from) || !Supported(to) then None
    else var inUsd := amount / UsdRate(from).value; Some(inUsd * UsdRate(to).value)
  }

  lemma ThroughDollars(amount: real, rf: real, rt: real)
    requires rf > 0.0 && rt > 0.0
    ensures amount / rf * rt / rt * rf == amount
  {
    var u := amount / rf;
    assert u * rf == amount;
    assert u * rt / rt == u;
  }

  /** Dollars to dollars is the identity, and dollars to X multiplies by X's rate. */
  lemma ConvertFromUsd(amount: real, to: string)
    requires Supported(to)
    ensures Convert(amount, "USD", to) == Some(amount * UsdRate(to).value)
    ensures Convert(amount, "USD", "USD") == Some(amount)
  {
    assert EqualsIgnoreCase("USD", "USD");
  }

  lemma ScaleKeepsSign(amount: real, rf: real, rt: real)
    requires rf > 0.0 && rt > 0.0
    ensures amount > 0.0 ==> amount / rf * rt > 0.0
    ensures amount == 0.0 ==> amount / rf * rt == 0.0
  {
    var u := amount / rf;
    assert u * rf == amount;
    if amount > 0.0 {
      assert u > 0.0;
    }
  }

  /** Conversion keeps the sign of the amount: every rate is positive. */
  lemma ConvertKeepsSign(amount: real, from: string, to: string)
    requires Supported(from) && Supported(to)
    ensures amount > 0.0 ==> Convert(amount, from, to).value > 0.0
    ensures amount == 0.0 ==> Convert(amount, from, to).value == 0.0
  {
    ScaleKeepsSign(amount, UsdRate(from).value, UsdRate(to).value);
  }

  /** Converting there and back returns the original amount (exact arithmetic). */
  lemma ConvertRoundTrip(amount: real, from: string, to: string)
    requires Supported(from) && Supported(to)
    ensures Convert(Convert(amount, from, to).value, to, from) == Some(amount)
  {
    ThroughDollars(amount, UsdRate(from).value, UsdRate(to).value);
  }
}
