/** The session-2 CuentaBancaria: a single class with the base rules and no
    monthly cut. */
module PlainAccount {
  import opened Text
  import opened Outcomes
  import opened Validation
  import A = Accounts

  datatype Account = Account(id: int, holder: string, balance: real, active: bool)

  /** The invariants listed in the class docstring: a non-blank holder and a
      non-negative balance. */
  predicate Valid(a: Account) {
    ValidHolder(a.holder) && a.balance >= 0.0
  }

  /** The class counter after a construction attempt and its outcome. */
  datatype Created = Created(nextId: int, account: Result<Account>)

  /** CuentaBancaria(titular, saldo_inicial): the id is drawn before the
      holder and the balance are checked. */
  function New(nextId: int, holder: Option<string>, initial: real): (r: Created)
    ensures r.nextId == nextId + 1
    ensures r.account.Ok? <==> HolderAccepted(holder) && initial >= 0.0
    ensures !HolderAccepted(holder) ==> r.account == Err(CheckHolder(holder).error)
    ensures HolderAccepted(holder) && initial < 0.0 ==> r.account == Err(NegativeInitialBalance)
    ensures r.account.Ok? ==>
      var a := r.account.value;
      a.id == nextId && a.holder == Strip(holder.value) && a.balance == initial && a.active && Valid(a)
  {
    var account :=
      var h :- CheckHolder(holder);
      var b :- CheckInitialBalance(initial);
      Ok(Account(nextId, h, b, true));
    Created(nextId + 1, account)
  }

  /** The titular setter. */
  function SetHolder(a: Account, value: Option<string>): (r: Result<Account>)
    ensures r.Ok? <==> HolderAccepted(value)
    ensures r.Err? ==> r.error == (if value.None? then HolderMissing else HolderBlank)
    ensures r.Ok? ==> r.value == a.(holder := Strip(value.value)) && ValidHolder(r.value.holder)
    ensures r.Ok? && Valid(a) ==> Valid(r.value)
  {
    var h :- CheckHolder(value);
    Ok(a.(holder := h))
  }

  /** consignar. */
  function Deposit(a: Account, amount: real): (r: Result<Account>)
    ensures r.Ok? <==> a.active && amount > 0.0
    ensures !a.active ==> r == Err(AccountClosed)
    ensures a.active && amount <= 0.0 ==> r == Err(NonPositiveAmount)
    ensures r.Ok? ==> r.value.balance == a.balance + amount && r.value.(balance := a.balance) == a
    ensures r.Ok? && Valid(a) ==> Valid(r.value)
  {
    if !a.active then Err(AccountClosed)
    else
      var m :- CheckAmount(amount);
      Ok(a.(balance := a.balance + m))
  }

  /** retirar: no overdraft, so the balance stays non-negative. */
  function Withdraw(a: Account, amount: real): (r: Result<Account>)
    ensures r.Ok? <==> a.active && amount > 0.0 && amount <= a.balance
    ensures !a.active ==> r == Err(AccountClosed)
    ensures a.active && amount <= 0.0 ==> r == Err(NonPositiveAmount)
    ensures a.active && 0.0 < amount && a.balance < amount ==> r == Err(InsufficientFunds)
    ensures r.Ok? ==> r.value.balance == a.balance - amount >= 0.0 && r.value.(balance := a.balance) == a
    ensures r.Ok? && Valid(a) ==> Valid(r.value)
  {
    if !a.active then Err(AccountClosed)
    else
      var m :- CheckAmount(amount);
      if m > a.balance then Err(InsufficientFunds)
      else Ok(a.(balance := a.balance - m))
  }

  /** cerrar: unconditional and idempotent. */
  function Close(a: Account): (r: Account)
    ensures !r.active
    ensures r.(active := a.active) == a
  {
    a.(active := false)
  }

  datatype Op =
    | RenameOp(holder: Option<string>)
    | CloseOp
    | DepositOp(amount: real)
    | WithdrawOp(amount: real)

  function Apply(a: Account, op: Op): (r: Result<Account>)
    ensures r.Ok? ==> r.value.id == a.id
    ensures r.Ok? && Valid(a) ==> Valid(r.value)
    ensures r.Ok? && !a.active ==> !r.value.active && r.value.balance == a.balance
    ensures !a.active && (op.DepositOp? || op.WithdrawOp?) ==> r == Err(AccountClosed)
  {
    match op
    case RenameOp(h) => SetHolder(a, h)
    case CloseOp => Ok(Close(a))
    case DepositOp(m) => Deposit(a, m)
    case WithdrawOp(m) => Withdraw(a, m)
  }

  /** ops applied in turn, a failing one leaving the account as it was. */
  function Run(a: Account, ops: seq<Op>): Account
    decreases |ops|
  {
    if ops == [] then a
    else
      var next := match Apply(a, ops[0]) case Ok(b) => b case Err(_) => a;
      Run(next, ops[1..])
  }

  /** The class invariant holds after any sequence of calls, and a closed
      account never reopens and never changes balance. */
  lemma {:induction false} RunKeepsInvariants(a: Account, ops: seq<Op>)
    ensures Run(a, ops).id == a.id
    ensures Valid(a) ==> Valid(Run(a, ops))
    ensures !a.active ==> !Run(a, ops).active && Run(a, ops).balance == a.balance
    decreases |ops|
  {
    if ops != [] {
      var next := match Apply(a, ops[0]) case Ok(b) => b case Err(_) => a;
      RunKeepsInvariants(next, ops[1..]);
    }
  }

  /** The same account seen as a session-3 base account. */
  function Embed(a: Account): A.Account {
    A.Account(a.id, a.holder, a.balance, a.active, A.Base)
  }

  function EmbedResult(r: Result<Account>): Result<A.Account> {
    match r
    case Ok(a) => Ok(Embed(a))
    case Err(e) => Err(e)
  }

  /** The session-3 CuentaBase keeps the session-2 rules unchanged: every
      operation, and construction, gives the same outcome on both. */
  lemma BaseAccountRefinesPlain(a: Account, amount: real, holder: Option<string>, nextId: int, initial: real)
    ensures A.Valid(Embed(a)) <==> Valid(a)
    ensures EmbedResult(Deposit(a, amount)) == A.Deposit(Embed(a), amount)
    ensures EmbedResult(Withdraw(a, amount)) == A.Withdraw(Embed(a), amount)
    ensures EmbedResult(SetHolder(a, holder)) == A.SetHolder(Embed(a), holder)
    ensures Embed(Close(a)) == A.Close(Embed(a))
    ensures EmbedResult(New(nextId, holder, initial).account) == A.NewBase(nextId, holder, initial).account
  {
  }
}
