/** The session-3 account hierarchy (CuentaBase, CuentaAhorros,
    CuentaCorriente) as one immutable record with a variant tag. Every
    operation either fails before touching anything or returns the account
    with exactly one field changed. */
module Accounts {
  import opened Text
  import opened Outcomes
  import opened Validation

  /** The class of the account, with the fields only that class has. */
  datatype Kind =
    | Base
    | Savings(rate: real)
    | Checking(overdraftLimit: real, fee: real)

  datatype Account = Account(id: int, holder: string, balance: real, active: bool, kind: Kind)

  /** The lowest balance the account may reach: the overdraft limit for
      checking accounts, zero for the others. */
  function Floor(k: Kind): real {
    if k.Checking? then -k.overdraftLimit else 0.0
  }

  predicate ValidKind(k: Kind) {
    match k
    case Base => true
    case Savings(rate) => rate >= 0.0
    case Checking(limit, fee) => limit >= 0.0 && fee >= 0.0
  }

  /** The invariant every constructed account keeps. */
  predicate Valid(a: Account) {
    ValidHolder(a.holder) && ValidKind(a.kind) && a.balance >= Floor(a.kind)
  }

  /** The value of the shared id counter after a construction attempt,
      together with the account or the error the constructor raised. */
  datatype Created = Created(nextId: int, account: Result<Account>)

  /** CuentaBase.__init__ after the id has been drawn: holder first, then the
      initial balance. */
  function InitBase(id: int, holder: Option<string>, initial: real): (r: Result<Account>)
    ensures r.Ok? <==> HolderAccepted(holder) && initial >= 0.0
    ensures r.Err? ==>
      r.error == if HolderAccepted(holder) then NegativeInitialBalance else CheckHolder(holder).error
    ensures r.Ok? ==> r.value == Account(id, Strip(holder.value), initial, true, Base) && Valid(r.value)
  {
    var h :- CheckHolder(holder);
    var b :- CheckInitialBalance(initial);
    Ok(Account(id, h, b, true, Base))
  }

  /** CuentaBase(titular, saldo_inicial). The counter is consumed before any
      validation, so even a failed attempt uses up an id. */
  function NewBase(nextId: int, holder: Option<string>, initial: real): (r: Created)
    ensures r.nextId == nextId + 1
    ensures r.account.Ok? <==> HolderAccepted(holder) && initial >= 0.0
    ensures !HolderAccepted(holder) ==> r.account == Err(CheckHolder(holder).error)
    ensures HolderAccepted(holder) && initial < 0.0 ==> r.account == Err(NegativeInitialBalance)
    ensures r.account.Ok? ==>
      var a := r.account.value;
      a.id == nextId && a.holder == Strip(holder.value) && a.balance == initial
      && a.active && a.kind == Base && Valid(a)
  {
    Created(nextId + 1, InitBase(nextId, holder, initial))
  }

  /** Giving a valid account another valid kind whose floor its balance
      still meets keeps it valid. */
  lemma WithKind(a: Account, k: Kind)
    requires Valid(a) && ValidKind(k) && a.balance >= Floor(k)
    ensures Valid(a.(kind := k))
  {
    assert a.(kind := k).holder == a.holder;
  }

  /** CuentaAhorros(titular, saldo_inicial, tasa_interes): the base
      constructor runs first, then the rate is checked. */
  function NewSavings(nextId: int, holder: Option<string>, initial: real, rate: real): (r: Created)
    ensures r.nextId == nextId + 1
    ensures r.account.Ok? <==> HolderAccepted(holder) && initial >= 0.0 && rate >= 0.0
    ensures NewBase(nextId, holder, initial).account.Err? ==>
      r.account == NewBase(nextId, holder, initial).account
    ensures NewBase(nextId, holder, initial).account.Ok? && rate < 0.0 ==> r.account == Err(NegativeInterestRate)
    ensures r.account.Ok? ==>
      r.account.value == NewBase(nextId, holder, initial).account.value.(kind := Savings(rate))
      && Valid(r.account.value)
  {
    match NewBase(nextId, holder, initial).account
    case Err(e) => Created(nextId + 1, Err(e))
    case Ok(a) =>
      if rate < 0.0 then Created(nextId + 1, Err(NegativeInterestRate))
      else
        WithKind(a, Savings(rate));
        Created(nextId + 1, Ok(a.(kind := Savings(rate))))
  }

  /** CuentaCorriente(titular, saldo_inicial, cupo_sobregiro, cuota_manejo):
      the base constructor, then the overdraft limit, then the fee. */
  function NewChecking(nextId: int, holder: Option<string>, initial: real, limit: real, fee: real): (r: Created)
    ensures r.nextId == nextId + 1
    ensures r.account.Ok? <==> HolderAccepted(holder) && initial >= 0.0 && limit >= 0.0 && fee >= 0.0
    ensures NewBase(nextId, holder, initial).account.Err? ==>
      r.account == NewBase(nextId, holder, initial).account
    ensures NewBase(nextId, holder, initial).account.Ok? && limit < 0.0 ==> r.account == Err(NegativeOverdraftLimit)
    ensures NewBase(nextId, holder, initial).account.Ok? && limit >= 0.0 && fee < 0.0 ==>
      r.account == Err(NegativeFee)
    ensures r.account.Ok? ==>
      r.account.value == NewBase(nextId, holder, initial).account.value.(kind := Checking(limit, fee))
      && Valid(r.account.value)
  {
    match NewBase(nextId, holder, initial).account
    case Err(e) => Created(nextId + 1, Err(e))
    case Ok(a) =>
      if limit < 0.0 then Created(nextId + 1, Err(NegativeOverdraftLimit))
      else if fee < 0.0 then Created(nextId + 1, Err(NegativeFee))
      else
        WithKind(a, Checking(limit, fee));
        Created(nextId + 1, Ok(a.(kind := Checking(limit, fee))))
  }

  /** The titular setter. It is not gated on the account being active. */
  function SetHolder(a: Account, value: Option<string>): (r: Result<Account>)
    ensures r.Ok? <==> HolderAccepted(value)
    ensures r.Err? ==> r.error == (if value.None? then HolderMissing else HolderBlank)
    ensures r.Ok? ==> r.value == a.(holder := Strip(value.value)) && ValidHolder(r.value.holder)
    ensures r.Ok? && Valid(a) ==> Valid(r.value)
  {
    var h :- CheckHolder(value);
    Ok(a.(holder := h))
  }

  /** _asegurar_activa: only a closed account is refused, and an open one
      passes through unchanged. */
  function EnsureActive(a: Account): (r: Result<Account>)
    ensures r.Ok? <==> a.active
    ensures r.Ok? ==> r.value == a
    ensures r.Err? ==> r.error == AccountClosed
  {
    if a.active then Ok(a) else Err(AccountClosed)
  }

  /** consignar: the closed check comes first, then the amount check. */
  function Deposit(a: Account, amount: real): (r: Result<Account>)
    ensures r.Ok? <==> a.active && amount > 0.0
    ensures !a.active ==> r == Err(AccountClosed)
    ensures a.active && amount <= 0.0 ==> r == Err(NonPositiveAmount)
    ensures r.Ok? ==> r.value.balance == a.balance + amount && r.value.(balance := a.balance) == a
    ensures r.Ok? && Valid(a) ==> Valid(r.value)
  {
    var _ :- EnsureActive(a);
    var m :- CheckAmount(amount);
    Ok(a.(balance := a.balance + m))
  }

  /** CuentaBase.retirar, used by base and savings accounts: no overdraft. */
  function BaseWithdraw(a: Account, amount: real): (r: Result<Account>)
    ensures r.Ok? <==> a.active && amount > 0.0 && amount <= a.balance
    ensures !a.active ==> r == Err(AccountClosed)
    ensures a.active && amount <= 0.0 ==> r == Err(NonPositiveAmount)
    ensures a.active && 0.0 < amount && a.balance < amount ==> r == Err(InsufficientFunds)
    ensures r.Ok? ==> r.value.balance == a.balance - amount >= 0.0 && r.value.(balance := a.balance) == a
  {
    var _ :- EnsureActive(a);
    var m :- CheckAmount(amount);
    if m > a.balance then Err(InsufficientFunds)
    else Ok(a.(balance := a.balance - m))
  }

  /** CuentaCorriente.retirar: the balance may go down to -limit. */
  function CheckingWithdraw(a: Account, amount: real): (r: Result<Account>)
    requires a.kind.Checking?
    ensures r.Ok? <==> a.active && amount > 0.0 && a.balance - amount >= -a.kind.overdraftLimit
    ensures !a.active ==> r == Err(AccountClosed)
    ensures a.active && amount <= 0.0 ==> r == Err(NonPositiveAmount)
    ensures a.active && 0.0 < amount && a.balance - amount < -a.kind.overdraftLimit ==> r == Err(OverdraftExceeded)
    ensures r.Ok? ==> r.value.balance == a.balance - amount >= -a.kind.overdraftLimit
    ensures r.Ok? ==> r.value.(balance := a.balance) == a
  {
    var _ :- EnsureActive(a);
    var m :- CheckAmount(amount);
    var newBalance := a.balance - m;
    if newBalance < -a.kind.overdraftLimit then Err(OverdraftExceeded)
    else Ok(a.(balance := newBalance))
  }

  /** retirar, dispatched on the class of the account. Whatever the class,
      a withdrawal succeeds exactly when it keeps the balance at or above
      the floor of that class. */
  function Withdraw(a: Account, amount: real): (r: Result<Account>)
    ensures r.Ok? <==> a.active && amount > 0.0 && a.balance - amount >= Floor(a.kind)
    ensures !a.active ==> r == Err(AccountClosed)
    ensures a.active && amount <= 0.0 ==> r == Err(NonPositiveAmount)
    ensures r.Ok? ==> r.value.balance == a.balance - amount && r.value.(balance := a.balance) == a
    ensures r.Ok? && Valid(a) ==> Valid(r.value)
  {
    if a.kind.Checking? then CheckingWithdraw(a, amount) else BaseWithdraw(a, amount)
  }

  /** cerrar: unconditional, so closing a closed account is no error. */
  function Close(a: Account): (r: Account)
    ensures !r.active
    ensures r.(active := a.active) == a
    ensures Valid(a) ==> Valid(r)
  {
    a.(active := false)
  }

  /** CuentaBase.aplicar_corte_mensual: only checks that the account is open. */
  function BaseSettle(a: Account): (r: Result<Account>)
    ensures r.Ok? <==> a.active
    ensures r.Err? ==> r.error == AccountClosed
    ensures r.Ok? ==> r.value == a
  {
    EnsureActive(a)
  }

  /** CuentaAhorros.aplicar_corte_mensual: simple interest, added only when
      it is positive. On a valid account the balance is multiplied by
      1 + rate, so it never decreases. */
  function SavingsSettle(a: Account): (r: Result<Account>)
    requires a.kind.Savings?
    ensures r.Ok? <==> a.active
    ensures r.Err? ==> r.error == AccountClosed
    ensures r.Ok? ==> r.value.(balance := a.balance) == a
    ensures r.Ok? && a.balance >= 0.0 && a.kind.rate >= 0.0 ==>
      r.value.balance == a.balance * (1.0 + a.kind.rate) >= a.balance
    ensures r.Ok? && a.balance * a.kind.rate <= 0.0 ==> r.value == a
  {
    var b :- BaseSettle(a);
    var interest := b.balance * b.kind.rate;
    if interest > 0.0 then Ok(b.(balance := b.balance + interest)) else Ok(b)
  }

  /** CuentaCorriente.aplicar_corte_mensual: charges the fee, all or nothing,
      unless that would break the overdraft limit. */
  function CheckingSettle(a: Account): (r: Result<Account>)
    requires a.kind.Checking?
    ensures r.Ok? <==> a.active && (a.kind.fee <= 0.0 || a.balance - a.kind.fee >= -a.kind.overdraftLimit)
    ensures !a.active ==> r == Err(AccountClosed)
    ensures a.active && a.kind.fee > 0.0 && a.balance - a.kind.fee < -a.kind.overdraftLimit ==>
      r == Err(FeeExceedsOverdraft)
    ensures r.Ok? && a.kind.fee <= 0.0 ==> r.value == a
    ensures r.Ok? && a.kind.fee >= 0.0 ==> r.value == a.(balance := a.balance - a.kind.fee)
    ensures r.Ok? && a.kind.fee > 0.0 ==> r.value.balance >= -a.kind.overdraftLimit
  {
    var b :- BaseSettle(a);
    if b.kind.fee <= 0.0 then Ok(b)
    else
      var newBalance := b.balance - b.kind.fee;
      if newBalance < -b.kind.overdraftLimit then Err(FeeExceedsOverdraft)
      else Ok(b.(balance := newBalance))
  }

  /** aplicar_corte_mensual, dispatched on the class of the account. */
  function Settle(a: Account): (r: Result<Account>)
    ensures !a.active ==> r == Err(AccountClosed)
    ensures r.Ok? ==> r.value.(balance := a.balance) == a
    ensures r.Ok? && Valid(a) ==> Valid(r.value)
    ensures a.active && a.kind.Base? ==> r == Ok(a)
  {
    match a.kind
    case Base => BaseSettle(a)
    case Savings(_) => SavingsSettle(a)
    case Checking(_, _) => CheckingSettle(a)
  }

  /** The operations an existing account accepts. */
  datatype Op =
    | RenameOp(holder: Option<string>)
    | CloseOp
    | DepositOp(amount: real)
    | WithdrawOp(amount: real)
    | SettleOp

  function Apply(a: Account, op: Op): (r: Result<Account>)
    ensures r.Ok? ==> r.value.id == a.id && r.value.kind == a.kind
    ensures r.Ok? && Valid(a) ==> Valid(r.value)
    ensures r.Ok? && !a.active ==> !r.value.active
    ensures !a.active && !op.RenameOp? && !op.CloseOp? ==> r == Err(AccountClosed)
  {
    match op
    case RenameOp(h) => SetHolder(a, h)
    case CloseOp => Ok(Close(a))
    case DepositOp(m) => Deposit(a, m)
    case WithdrawOp(m) => Withdraw(a, m)
    case SettleOp => Settle(a)
  }

  /** The account after ops, each applied in turn; an operation that fails
      leaves the account as it was, as when the caller catches the error. */
  function Run(a: Account, ops: seq<Op>): Account
    decreases |ops|
  {
    if ops == [] then a
    else
      var next := match Apply(a, ops[0]) case Ok(b) => b case Err(_) => a;
      Run(next, ops[1..])
  }

  /** After any sequence of operations the account keeps its id and class,
      still satisfies its invariant (in particular its balance floor), and
      if it was closed it stays closed with its balance frozen. */
  lemma {:induction false} RunKeepsInvariants(a: Account, ops: seq<Op>)
    ensures Run(a, ops).id == a.id && Run(a, ops).kind == a.kind
    ensures Valid(a) ==> Valid(Run(a, ops))
    ensures !a.active ==> !Run(a, ops).active && Run(a, ops).balance == a.balance
    decreases |ops|
  {
    if ops != [] {
      var next := match Apply(a, ops[0]) case Ok(b) => b case Err(_) => a;
      assert !a.active ==> next.balance == a.balance by {
        if !a.active && Apply(a, ops[0]).Ok? {
          assert ops[0].RenameOp? || ops[0].CloseOp?;
        }
      }
      RunKeepsInvariants(next, ops[1..]);
    }
  }

  /** Closing twice is the same as closing once. */
  lemma CloseIdempotent(a: Account)
    ensures Close(Close(a)) == Close(a)
  {
  }

  /** A closed account refuses deposits, withdrawals and every monthly cut,
      but can still be renamed. */
  lemma ClosedAccountRefuses(a: Account, amount: real, holder: Option<string>)
    requires !a.active
    ensures Deposit(a, amount) == Err(AccountClosed)
    ensures Withdraw(a, amount) == Err(AccountClosed)
    ensures Settle(a) == Err(AccountClosed)
    ensures SetHolder(a, holder).Ok? <==> HolderAccepted(holder)
  {
  }

  /** Withdrawing what was just deposited gives back the original account,
      whatever its class. */
  lemma DepositThenWithdraw(a: Account, amount: real)
    requires Valid(a) && a.active && amount > 0.0
    ensures Deposit(a, amount).Ok?
    ensures Withdraw(Deposit(a, amount).value, amount) == Ok(a)
  {
  }
}
