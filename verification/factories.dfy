/** Services/Factories.cs: the menu selectors that pick an account or loan variant. */
module Factories {
  import opened Wrappers
  import opened Dates
  import opened InterestStrategies
  import opened Ids
  import opened Accounts
  import opened Loans

  /** The account variant a selector names; a CD opened today gets the default 12-month term. */
  function AccountKindFor(selector: string, today: Date): Option<AccountKind>
  {
    if selector == "1" then Some(Savings)
    else if selector == "2" then Some(Checking)
    else if selector == "3" then Some(CertificateOfDeposit(DefaultCdTermMonths, today))
    else None
  }

  /** The loan variant a selector names. */
  function LoanKindFor(selector: string): Option<LoanKind>
  {
    if selector == "1" then Some(Personal)
    else if selector == "2" then Some(Mortgage)
    else if selector == "3" then Some(Auto)
    else None
  }

  /**
   * AccountFactory.CreateAccount: a new account of the selected variant with
   * the variant's interest strategy attached, or null for an unknown selector
   * (in which case no account number is drawn).
   */
  method CreateAccount(ids: IdGenerator, customerId: int, selector: string, currency: string, today: Date) returns (a: Account?)
    modifies ids
    ensures a == null <==> selector != "1" && selector != "2" && selector != "3"
    ensures selector == "1" ==> a != null && a.kind == Savings
    ensures selector == "2" ==> a != null && a.kind == Checking
    ensures selector == "3" ==> a != null && a.kind == CertificateOfDeposit(DefaultCdTermMonths, today)
    ensures a == null ==> ids.accountSeq == old(ids.accountSeq) && ids.customerSeq == old(ids.customerSeq)
    ensures a != null ==>
      && fresh(a) && a.Valid()
      && a.interestStrategy == Some(StrategyFor(a.kind))
      && a.customerId == customerId && a.currency == currency
      && a.number == AccountNumberFor(old(ids.accountSeq))
      && ids.accountSeq == old(ids.accountSeq) + 1 && ids.customerSeq == old(ids.customerSeq)
      && a.State() == Opened
  {
    var kind := AccountKindFor(selector, today);
    if kind.None? {
      return null;
    }
    a := new Account(ids, customerId, currency, kind.value, Some(StrategyFor(kind.value)));
  }

  /** LoanFactory.CreateLoan: a new loan of the selected variant, or null for an unknown selector. */
  method CreateLoan(loanId: string, customerId: int, selector: string, principal: real, termMonths: int, currency: string) returns (l: Loan?)
    ensures l == null <==> selector != "1" && selector != "2" && selector != "3"
    ensures selector == "1" ==> l != null && l.kind == Personal
    ensures selector == "2" ==> l != null && l.kind == Mortgage
    ensures selector == "3" ==> l != null && l.kind == Auto
    ensures l != null ==>
      && fresh(l) && l.Valid()
      && l.loanId == loanId && l.customerId == customerId
      && l.termMonths == termMonths && l.currency == currency
      && l.annualRate == AnnualRateOf(l.kind)
      && l.State() == Fresh(principal)
  {
    var kind := LoanKindFor(selector);
    if kind.None? {
      return null;
    }
    l := new Loan(loanId, customerId, kind.value, principal, termMonths, currency);
  }
}
