/** The first-draft CuentaBancaria: no id, no closed state and no holder
    validation; only the balance rules. */
module Draft {
  import opened Outcomes
  import P = PlainAccount

  datatype Account = Account(holder: string, balance: real)

  /** The constructor: only a negative initial balance is refused; the holder
      is stored as given, even when blank. */
  function New(holder: string, initial: real): (r: Result<Account>)
    ensures r.Ok? <==> initial >= 0.0
    ensures r.Err? ==> r.error == NegativeInitialBalance
    ensures r.Ok? ==> r.value.holder == holder && r.value.balance == initial >= 0.0
  {
    if initial < 0.0 then Err(NegativeInitialBalance) else Ok(Account(holder, initial))
  }

  /** consignar. */
  function Deposit(a: Account, amount: real): (r: Result<Account>)
    ensures r.Ok? <==> amount > 0.0
    ensures r.Err? ==> r.error == NonPositiveAmount
    ensures r.Ok? ==> r.value.holder == a.holder && r.value.balance == a.balance + amount
  {
    if amount <= 0.0 then Err(NonPositiveAmount) else Ok(a.(balance := a.balance + amount))
  }

  /** retirar: the amount check comes before the funds check. */
  function Withdraw(a: Account, amount: real): (r: Result<Account>)
    ensures r.Ok? <==> 0.0 < amount <= a.balance
    ensures amount <= 0.0 ==> r == Err(NonPositiveAmount)
    ensures 0.0 < amount && a.balance < amount ==> r == Err(InsufficientFunds)
    ensures r.Ok? ==> r.value.holder == a.holder && r.value.balance == a.balance - amount >= 0.0
  {
    if amount <= 0.0 then Err(NonPositiveAmount)
    else if amount > a.balance then Err(InsufficientFunds)
    else Ok(a.(balance := a.balance - amount))
  }

  datatype Op = DepositOp(amount: real) | WithdrawOp(amount: real)

  function Apply(a: Account, op: Op): Result<Account> {
    match op
    case DepositOp(m) => Deposit(a, m)
    case WithdrawOp(m) => Withdraw(a, m)
  }

  /** ops applied in turn; a call that raises leaves the account unchanged. */
  function Run(a: Account, ops: seq<Op>): Account
    decreases |ops|
  {
    if ops == [] then a
    else
      var next := match Apply(a, ops[0]) case Ok(b) => b case Err(_) => a;
      Run(next, ops[1..])
  }

  /** Starting from a successful construction, the balance is never negative
      and the holder never changes, whatever calls follow. */
  lemma {:induction false} RunKeepsBalanceNonNegative(a: Account, ops: seq<Op>)
    requires a.balance >= 0.0
    ensures Run(a, ops).balance >= 0.0
    ensures Run(a, ops).holder == a.holder
    decreases |ops|
  {
    if ops != [] {
      var next := match Apply(a, ops[0]) case Ok(b) => b case Err(_) => a;
      RunKeepsBalanceNonNegative(next, ops[1..]);
    }
  }

  /** On an open account the later revision keeps the draft's balance rules:
      the same calls succeed, fail for the same reason, and leave the same
      balance. */
  lemma LaterRevisionKeepsRules(a: Account, p: P.Account, amount: real)
    requires p.active && p.holder == a.holder && p.balance == a.balance
    ensures Deposit(a, amount).Ok? <==> P.Deposit(p, amount).Ok?
    ensures Deposit(a, amount).Err? ==> P.Deposit(p, amount) == Deposit(a, amount).PropagateFailure()
    ensures Deposit(a, amount).Ok? ==> P.Deposit(p, amount).value.balance == Deposit(a, amount).value.balance
    ensures Withdraw(a, amount).Ok? <==> P.Withdraw(p, amount).Ok?
    ensures Withdraw(a, amount).Err? ==> P.Withdraw(p, amount) == Withdraw(a, amount).PropagateFailure()
    ensures Withdraw(a, amount).Ok? ==> P.Withdraw(p, amount).value.balance == Withdraw(a, amount).value.balance
  {
  }
}
