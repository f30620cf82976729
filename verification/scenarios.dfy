/** Concrete runs of the session-3 model on the seed data of main.py and on
    worked examples. */
module Scenarios {
  import opened Outcomes
  import A = Accounts
  import opened BankService
  import opened Text
  import opened Validation

  /** main.py opens a savings account for Ana (100000 at 1%) and a checking
      account for Carlos (20000, overdraft 50000, fee 5000); one monthly cut
      brings Ana to 101000 and Carlos to 15000. */
  lemma SeedDataMonthlyCut()
    ensures
      var r1 := OpenSavings(Empty(), Some("Ana"), 100000.0, 0.01);
      var r2 := OpenChecking(r1.bank, Some("Carlos"), 20000.0, 50000.0, 5000.0);
      var s := SettleAll(r2.bank);
      && r2.bank.accounts == [
           A.Account(1, "Ana", 100000.0, true, A.Savings(0.01)),
           A.Account(2, "Carlos", 20000.0, true, A.Checking(50000.0, 5000.0))]
      && s.failure == None
      && s.bank.accounts == [
           A.Account(1, "Ana", 101000.0, true, A.Savings(0.01)),
           A.Account(2, "Carlos", 15000.0, true, A.Checking(50000.0, 5000.0))]
  {
    SeedDataOpened();
    SeedDataCut();
  }

  /** Opening the two seed accounts gives them ids 1 and 2, in that order. */
  lemma SeedDataOpened()
    ensures
      var r1 := OpenSavings(Empty(), Some("Ana"), 100000.0, 0.01);
      var r2 := OpenChecking(r1.bank, Some("Carlos"), 20000.0, 50000.0, 5000.0);
      r2.bank == Bank([
        A.Account(1, "Ana", 100000.0, true, A.Savings(0.01)),
        A.Account(2, "Carlos", 20000.0, true, A.Checking(50000.0, 5000.0))], 3)
  {
    HolderKept("Ana");
    HolderKept("Carlos");
    var r1 := OpenSavings(Empty(), Some("Ana"), 100000.0, 0.01);
    assert r1.account == Ok(A.Account(1, "Ana", 100000.0, true, A.Savings(0.01)));
    var r2 := OpenChecking(r1.bank, Some("Carlos"), 20000.0, 50000.0, 5000.0);
    assert r2.account == Ok(A.Account(2, "Carlos", 20000.0, true, A.Checking(50000.0, 5000.0)));
  }

  /** The monthly cut over the two seed accounts: interest for Ana, the fee
      for Carlos, and no refusal. */
  lemma SeedDataCut()
    ensures
      var s := SettleAll(Bank([
        A.Account(1, "Ana", 100000.0, true, A.Savings(0.01)),
        A.Account(2, "Carlos", 20000.0, true, A.Checking(50000.0, 5000.0))], 3));
      && s.failure == None
      && s.bank.accounts == [
           A.Account(1, "Ana", 101000.0, true, A.Savings(0.01)),
           A.Account(2, "Carlos", 15000.0, true, A.Checking(50000.0, 5000.0))]
  {
    var accts := [
      A.Account(1, "Ana", 100000.0, true, A.Savings(0.01)),
      A.Account(2, "Carlos", 20000.0, true, A.Checking(50000.0, 5000.0))];
    HolderKept("Ana");
    HolderKept("Carlos");
    assert A.Settle(accts[0]) == Ok(A.Account(1, "Ana", 101000.0, true, A.Savings(0.01)));
    assert A.Settle(accts[1]) == Ok(A.Account(2, "Carlos", 15000.0, true, A.Checking(50000.0, 5000.0)));
    var s := SettleAll(Bank(accts, 3));
    assert s.failure == None;
    assert |s.bank.accounts| == 2;
  }

  /** A checking account with 20000 and overdraft 50000 may go to -45000, but
      a further 10000 would pass the limit and is refused. */
  lemma OverdraftExample()
    ensures
      var c := A.Account(2, "Carlos", 20000.0, true, A.Checking(50000.0, 0.0));
      && A.Withdraw(c, 65000.0) == Ok(c.(balance := -45000.0))
      && A.Withdraw(c.(balance := -45000.0), 10000.0) == Err(OverdraftExceeded)
  {
  }

  /** At -48000 with overdraft 50000 a fee of 5000 is refused whole. */
  lemma FeeRefusedExample()
    ensures A.Settle(A.Account(2, "Carlos", -48000.0, true, A.Checking(50000.0, 5000.0))) == Err(FeeExceedsOverdraft)
  {
  }

  /** The batch stops at the first refusal: the checking account in front
      raises, so the savings account behind it earns no interest. */
  lemma BatchStopsAtFirstRefusal()
    ensures
      var c := A.Account(1, "Carlos", -48000.0, true, A.Checking(50000.0, 5000.0));
      var s := A.Account(2, "Ana", 100000.0, true, A.Savings(0.01));
      var r := SettleAll(Bank([c, s], 3));
      r.failure == Some(FeeExceedsOverdraft) && r.bank.accounts == [c, s]
  {
    var c := A.Account(1, "Carlos", -48000.0, true, A.Checking(50000.0, 5000.0));
    assert A.Settle(c) == Err(FeeExceedsOverdraft);
  }

  /** A name with no surrounding whitespace is accepted and stored as is. */
  lemma HolderKept(name: string)
    requires name != [] && !IsSpace(name[0]) && !IsSpace(name[|name| - 1])
    ensures CheckHolder(Some(name)) == Ok(name)
  {
    StripTrimmed(name);
  }
}
