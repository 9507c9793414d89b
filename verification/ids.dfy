/** Domain/IdGenerator.cs: the process-wide counters behind account numbers and customer ids. */
module Ids {
  import opened Text

  /** The account number issued for counter value `n`: "AC" followed by its decimal digits. */
  function AccountNumberFor(n: nat): string {
    "AC" + NatToString(n)
  }

  /** Different counter values give different account numbers. */
  lemma AccountNumbersDiffer(i: nat, j: nat)
    requires i != j
    ensures AccountNumberFor(i) != AccountNumberFor(j)
  {
    if AccountNumberFor(i) == AccountNumberFor(j) {
      assert NatToString(i) == AccountNumberFor(i)[2..] == AccountNumberFor(j)[2..] == NatToString(j);
      NatToStringInjective(i, j);
    }
  }

  /** The static counters `_accSeq` and `_custSeq`, held in one object. */
  class IdGenerator {
    var accountSeq: nat
    var customerSeq: nat

    constructor ()
      ensures accountSeq == 100000 && customerSeq == 1
    {
      accountSeq := 100000;
      customerSeq := 1;
    }

    /** NewAccountNumber: the number for the current counter, which then moves on by one. */
    method NewAccountNumber() returns (number: string)
      modifies this
      ensures number == AccountNumberFor(old(accountSeq))
      ensures accountSeq == old(accountSeq) + 1 && customerSeq == old(customerSeq)
    {
      number := AccountNumberFor(accountSeq);
      accountSeq := accountSeq + 1;
    }

    /** NewCustomerId: the current customer counter, which then moves on by one. */
    method NewCustomerId() returns (id: nat)
      modifies this
      ensures id == old(customerSeq)
      ensures customerSeq == old(customerSeq) + 1 && accountSeq == old(accountSeq)
    {
      id := customerSeq;
      customerSeq := customerSeq + 1;
    }
  }

  /** A fresh generator issues "AC100000", then "AC100001", and customer id 1; the counters do not interfere. */
  method FirstIds() returns (first: string, second: string, customer: nat)
    ensures first == "AC100000" && second == "AC100001" && first != second
    ensures customer == 1
  {
    var ids := new IdGenerator();
    first := ids.NewAccountNumber();
    customer := ids.NewCustomerId();
    second := ids.NewAccountNumber();
    FirstAccountNumber();
    SecondAccountNumber();
  }

  lemma FirstAccountNumber()
    ensures AccountNumberFor(100000) == "AC100000"
  {
    assert NatToString(100000) == "100000";
  }

  lemma SecondAccountNumber()
    ensures AccountNumberFor(100001) == "AC100001"
  {
    assert NatToString(100001) == "100001";
  }
}
