/** The session-2 BancoService over CuentaBancaria accounts, with that
    class's own id counter. */
module PlainBank {
  import opened Outcomes
  import opened Text
  import opened Lists
  import opened Validation
  import P = PlainAccount

  datatype Bank = Bank(accounts: seq<P.Account>, nextId: int)

  /** A fresh service: no accounts, CuentaBancaria._next_id at 1. */
  function Empty(): Bank {
    Bank([], 1)
  }

  function IdOf(a: P.Account): int {
    a.id
  }

  /** Every account is valid, ids strictly increase along the list and all
      lie below the counter. */
  predicate Inv(b: Bank) {
    && (forall i :: 0 <= i < |b.accounts| ==> P.Valid(b.accounts[i]) && b.accounts[i].id < b.nextId)
    && StrictlyIncreasing(b.accounts, IdOf)
  }

  datatype Opened = Opened(bank: Bank, account: Result<P.Account>)

  /** abrir_cuenta: appends the new account when construction succeeds; the
      counter moves on either way. */
  function Open(b: Bank, holder: Option<string>, initial: real): (r: Opened)
    ensures r.bank.nextId == b.nextId + 1
    ensures r.account == P.New(b.nextId, holder, initial).account
    ensures r.account.Ok? ==> r.bank.accounts == b.accounts + [r.account.value] && r.account.value.id == b.nextId
    ensures r.account.Err? ==> r.bank.accounts == b.accounts
    ensures Inv(b) ==> Inv(r.bank)
  {
    var c := P.New(b.nextId, holder, initial);
    match c.account
    case Ok(a) =>
      AppendKeepsInv(b, a);
      Opened(Bank(b.accounts + [a], c.nextId), c.account)
    case Err(_) => Opened(b.(nextId := c.nextId), c.account)
  }

  /** Appending a valid account that carries the current counter value, and
      moving the counter on, keeps Inv. */
  lemma AppendKeepsInv(b: Bank, a: P.Account)
    requires P.Valid(a) && a.id == b.nextId
    ensures Inv(b) ==> Inv(Bank(b.accounts + [a], b.nextId + 1))
  {
    if Inv(b) {
      var s := b.accounts + [a];
      forall i | 0 <= i < |s| ensures P.Valid(s[i]) && s[i].id < b.nextId + 1 {
        if i < |b.accounts| {
          assert s[i] == b.accounts[i];
        }
      }
      forall i, j | 0 <= i < j < |s| ensures IdOf(s[i]) < IdOf(s[j]) {
        assert s[i] == b.accounts[i];
        if j < |b.accounts| {
          assert s[j] == b.accounts[j];
        }
      }
    }
  }

  /** listar_cuentas: the sequence value is already a copy. */
  function List(b: Bank): seq<P.Account> {
    b.accounts
  }

  /** buscar_por_id: the first account with that id, or None. */
  function FindById(b: Bank, id: int): (r: Option<P.Account>)
    ensures r.None? <==> forall i :: 0 <= i < |b.accounts| ==> b.accounts[i].id != id
    ensures r.Some? ==> r.value.id == id && r.value in b.accounts
    ensures r.Some? ==>
      exists i :: 0 <= i < |b.accounts| && b.accounts[i] == r.value &&
        forall j :: 0 <= j < i ==> b.accounts[j].id != id
  {
    match FirstIndex(b.accounts, IdOf, id)
    case None => None
    case Some(i) => Some(b.accounts[i])
  }

  /** _obtener_o_fallar. */
  function Lookup(b: Bank, id: int): (r: Result<P.Account>)
    ensures r.Err? <==> FindById(b, id).None?
    ensures r.Err? ==> r.error == NoSuchAccount(id)
    ensures r.Ok? ==> FindById(b, id) == Some(r.value)
  {
    match FindById(b, id)
    case None => Err(NoSuchAccount(id))
    case Some(a) => Ok(a)
  }

  function HolderMatches(query: string): P.Account -> bool {
    (a: P.Account) => Contains(Lower(a.holder), query)
  }

  /** buscar_por_titular. */
  function SearchByHolder(b: Bank, text: string): (r: seq<P.Account>)
    ensures AllSpace(text) ==> r == []
    ensures !AllSpace(text) ==> forall i :: 0 <= i < |b.accounts| ==>
      (b.accounts[i] in r <==> Contains(Lower(b.accounts[i].holder), Lower(Strip(text))))
    ensures forall i :: 0 <= i < |r| ==> r[i] in b.accounts && Contains(Lower(r[i].holder), Lower(Strip(text)))
    ensures IsSubseq(r, b.accounts)
  {
    var query := Lower(Strip(text));
    if query == [] then [] else Filter(b.accounts, HolderMatches(query))
  }

  /** Find the account or raise, apply the operation, propagate its error;
      only the addressed account changes. */
  function Update(b: Bank, id: int, op: P.Op): (r: Result<Bank>)
    ensures FindById(b, id).None? ==> r == Err(NoSuchAccount(id))
    ensures FindById(b, id).Some? ==>
      var result := P.Apply(FindById(b, id).value, op);
      && (r.Ok? <==> result.Ok?)
      && (r.Err? ==> r.error == result.error)
      && (r.Ok? ==> FindById(r.value, id) == Some(result.value))
    ensures r.Ok? ==> r.value.nextId == b.nextId && |r.value.accounts| == |b.accounts|
    ensures r.Ok? ==> forall i :: 0 <= i < |b.accounts| && b.accounts[i].id != id ==>
      r.value.accounts[i] == b.accounts[i]
    ensures r.Ok? && Inv(b) ==> Inv(r.value)
  {
    match FirstIndex(b.accounts, IdOf, id)
    case None => Err(NoSuchAccount(id))
    case Some(i) =>
      var a :- P.Apply(b.accounts[i], op);
      ReplaceKeepsFirst(b.accounts, IdOf, id, i, a);
      ReplaceKeepsInv(b, i, a);
      Ok(b.(accounts := b.accounts[i := a]))
  }

  lemma ReplaceKeepsInv(b: Bank, i: nat, a: P.Account)
    requires i < |b.accounts|
    requires a.id == b.accounts[i].id
    requires Inv(b) ==> P.Valid(a)
    ensures Inv(b) ==> Inv(b.(accounts := b.accounts[i := a]))
  {
    if Inv(b) {
      ReplaceKeepsIncreasing(b.accounts, IdOf, i, a);
    }
  }

  /** cambiar_titular. */
  function Rename(b: Bank, id: int, holder: Option<string>): (r: Result<Bank>)
    ensures r.Ok? <==> FindById(b, id).Some? && HolderAccepted(holder)
    ensures r.Ok? ==> FindById(r.value, id) == Some(FindById(b, id).value.(holder := Strip(holder.value)))
  {
    Update(b, id, P.RenameOp(holder))
  }

  /** cerrar_cuenta. */
  function CloseAccount(b: Bank, id: int): (r: Result<Bank>)
    ensures r.Ok? <==> FindById(b, id).Some?
    ensures r.Ok? ==> FindById(r.value, id) == Some(P.Close(FindById(b, id).value))
  {
    Update(b, id, P.CloseOp)
  }

  /** consignar by id. */
  function Deposit(b: Bank, id: int, amount: real): (r: Result<Bank>)
    ensures r.Ok? <==> FindById(b, id).Some? && FindById(b, id).value.active && amount > 0.0
    ensures r.Ok? ==>
      FindById(r.value, id).Some? &&
      FindById(r.value, id).value.balance == FindById(b, id).value.balance + amount
  {
    Update(b, id, P.DepositOp(amount))
  }

  /** retirar by id. */
  function Withdraw(b: Bank, id: int, amount: real): (r: Result<Bank>)
    ensures r.Ok? <==>
      && FindById(b, id).Some?
      && var a := FindById(b, id).value;
      a.active && amount > 0.0 && amount <= a.balance
    ensures r.Ok? ==>
      FindById(r.value, id).Some? &&
      FindById(r.value, id).value.balance == FindById(b, id).value.balance - amount
  {
    Update(b, id, P.WithdrawOp(amount))
  }

  /** eliminar_cuenta. */
  function Remove(b: Bank, id: int): (r: Result<Bank>)
    ensures r.Err? <==> FindById(b, id).None?
    ensures r.Err? ==> r.error == NoSuchAccount(id)
    ensures r.Ok? ==> r.value.nextId == b.nextId && |r.value.accounts| == |b.accounts| - 1
    ensures r.Ok? ==> IsSubseq(r.value.accounts, b.accounts)
    ensures r.Ok? ==> multiset(r.value.accounts) == multiset(b.accounts) - multiset{FindById(b, id).value}
    ensures r.Ok? && Inv(b) ==> Inv(r.value) && FindById(r.value, id).None?
  {
    match FirstIndex(b.accounts, IdOf, id)
    case None => Err(NoSuchAccount(id))
    case Some(i) =>
      RemoveKeepsInv(b, id, i);
      Ok(b.(accounts := RemoveAt(b.accounts, i)))
  }

  lemma RemoveKeepsInv(b: Bank, id: int, i: nat)
    requires FirstIndex(b.accounts, IdOf, id) == Some(i)
    ensures Inv(b) ==> Inv(b.(accounts := RemoveAt(b.accounts, i)))
    ensures Inv(b) ==> FirstIndex(RemoveAt(b.accounts, i), IdOf, id).None?
  {
    if Inv(b) {
      RemoveFirstDropsKey(b.accounts, IdOf, id, i);
      SubseqMembers(RemoveAt(b.accounts, i), b.accounts);
    }
  }

  /** With unique ids, removal keeps exactly the accounts with another id, in order. */
  lemma RemoveIsFilter(b: Bank, id: int)
    requires Inv(b)
    requires Remove(b, id).Ok?
    ensures Remove(b, id).value.accounts == Filter(b.accounts, KeyIsNot(IdOf, id))
  {
    var i := FirstIndex(b.accounts, IdOf, id).value;
    RemoveFirstIsFilter(b.accounts, IdOf, id, i);
  }
}
