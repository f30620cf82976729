/** The session-3 BancoService: an ordered list of heterogeneous accounts,
    plus the id counter that the source keeps as a class attribute of
    CuentaBase (shared by all three classes). */
module BankService {
  import opened Outcomes
  import opened Text
  import opened Lists
  import opened Validation
  import A = Accounts

  datatype Bank = Bank(accounts: seq<A.Account>, nextId: int)

  /** A fresh service at program start: no accounts, counter at 1. */
  function Empty(): Bank {
    Bank([], 1)
  }

  function IdOf(a: A.Account): int {
    a.id
  }

  /** What every reachable bank satisfies: each account keeps its own
      invariant, ids strictly increase along the list (so they are unique),
      and all of them were drawn from the counter before its current value. */
  predicate Inv(b: Bank) {
    && (forall i :: 0 <= i < |b.accounts| ==> A.Valid(b.accounts[i]) && b.accounts[i].id < b.nextId)
    && StrictlyIncreasing(b.accounts, IdOf)
  }

  /** The ids currently in the bank. */
  function Ids(b: Bank): set<int> {
    set i | 0 <= i < |b.accounts| :: b.accounts[i].id
  }

  /** The bank after an opening, and the new account or the constructor's error. */
  datatype Opened = Opened(bank: Bank, account: Result<A.Account>)

  /** Appends the constructed account; the counter moves on in any case. */
  function Attach(b: Bank, c: A.Created): (r: Opened)
    requires c.nextId == b.nextId + 1
    requires c.account.Ok? ==> A.Valid(c.account.value) && c.account.value.id == b.nextId
    ensures Inv(b) ==> Inv(r.bank)
  {
    match c.account
    case Ok(a) =>
      AppendKeepsInv(b, a);
      Opened(Bank(b.accounts + [a], c.nextId), c.account)
    case Err(_) => Opened(b.(nextId := c.nextId), c.account)
  }

  /** Appending a valid account that carries the current counter value, and
      moving the counter on, keeps Inv. */
  lemma AppendKeepsInv(b: Bank, a: A.Account)
    requires A.Valid(a) && a.id == b.nextId
    ensures Inv(b) ==> Inv(Bank(b.accounts + [a], b.nextId + 1))
  {
    if Inv(b) {
      var s := b.accounts + [a];
      forall i | 0 <= i < |s| ensures A.Valid(s[i]) && s[i].id < b.nextId + 1 {
        if i < |b.accounts| {
          assert s[i] == b.accounts[i];
        }
      }
      forall i, j | 0 <= i < j < |s| ensures IdOf(s[i]) < IdOf(s[j]) {
        assert s[i] == b.accounts[i];
        if j < |b.accounts| {
          assert s[j] == b.accounts[j];
        }
      }
    }
  }

  /** abrir_ahorros. */
  function OpenSavings(b: Bank, holder: Option<string>, initial: real, rate: real): (r: Opened)
    ensures r.bank.nextId == b.nextId + 1
    ensures r.account == A.NewSavings(b.nextId, holder, initial, rate).account
    ensures r.account.Ok? ==> r.bank.accounts == b.accounts + [r.account.value] && r.account.value.id == b.nextId
    ensures r.account.Err? ==> r.bank.accounts == b.accounts
    ensures Inv(b) ==> Inv(r.bank)
  {
    Attach(b, A.NewSavings(b.nextId, holder, initial, rate))
  }

  /** abrir_corriente. */
  function OpenChecking(b: Bank, holder: Option<string>, initial: real, limit: real, fee: real): (r: Opened)
    ensures r.bank.nextId == b.nextId + 1
    ensures r.account == A.NewChecking(b.nextId, holder, initial, limit, fee).account
    ensures r.account.Ok? ==> r.bank.accounts == b.accounts + [r.account.value] && r.account.value.id == b.nextId
    ensures r.account.Err? ==> r.bank.accounts == b.accounts
    ensures Inv(b) ==> Inv(r.bank)
  {
    Attach(b, A.NewChecking(b.nextId, holder, initial, limit, fee))
  }

  /** listar_cuentas. Sequences are values, so the copy the source makes
      is the sequence itself. */
  function List(b: Bank): seq<A.Account> {
    b.accounts
  }

  /** buscar_por_id: the first account with that id, or None. */
  function FindById(b: Bank, id: int): (r: Option<A.Account>)
    ensures r.None? <==> forall i :: 0 <= i < |b.accounts| ==> b.accounts[i].id != id
    ensures r.Some? ==> r.value.id == id && r.value in b.accounts
    ensures r.Some? ==>
      exists i :: 0 <= i < |b.accounts| && b.accounts[i] == r.value &&
        forall j :: 0 <= j < i ==> b.accounts[j].id != id
  {
    match FirstIndex(b.accounts, IdOf, id)
    case None => None
    case Some(i) => Some(b.accounts[i])
  }

  /** With unique ids, the account found is the one carrying that id. */
  lemma FindByIdUnique(b: Bank, id: int, a: A.Account)
    requires StrictlyIncreasing(b.accounts, IdOf)
    ensures FindById(b, id) == Some(a) <==> a in b.accounts && a.id == id
  {
    if a in b.accounts && a.id == id {
      var k :| 0 <= k < |b.accounts| && b.accounts[k] == a;
      assert IdOf(b.accounts[k]) == id;
      var i := FirstIndex(b.accounts, IdOf, id).value;
      assert IdOf(b.accounts[i]) == IdOf(b.accounts[k]);
    }
  }

  /** _obtener_o_fallar: raises exactly when buscar_por_id finds nothing. */
  function Lookup(b: Bank, id: int): (r: Result<A.Account>)
    ensures r.Err? <==> FindById(b, id).None?
    ensures r.Err? ==> r.error == NoSuchAccount(id)
    ensures r.Ok? ==> FindById(b, id) == Some(r.value)
  {
    match FindById(b, id)
    case None => Err(NoSuchAccount(id))
    case Some(a) => Ok(a)
  }

  /** The search predicate of buscar_por_titular for an already prepared query. */
  function HolderMatches(query: string): A.Account -> bool {
    (a: A.Account) => Contains(Lower(a.holder), query)
  }

  /** buscar_por_titular: a blank query finds nothing; otherwise the accounts
      whose lower-cased holder contains the lower-cased stripped query, in
      list order. */
  function SearchByHolder(b: Bank, text: string): (r: seq<A.Account>)
    ensures AllSpace(text) ==> r == []
    ensures !AllSpace(text) ==> forall i :: 0 <= i < |b.accounts| ==>
      (b.accounts[i] in r <==> Contains(Lower(b.accounts[i].holder), Lower(Strip(text))))
    ensures forall i :: 0 <= i < |r| ==> r[i] in b.accounts && Contains(Lower(r[i].holder), Lower(Strip(text)))
    ensures IsSubseq(r, b.accounts)
  {
    var query := Lower(Strip(text));
    if query == [] then [] else Filter(b.accounts, HolderMatches(query))
  }

  /** The matches keep the list order, so their ids still increase. */
  lemma SearchKeepsOrder(b: Bank, text: string)
    requires Inv(b)
    ensures StrictlyIncreasing(SearchByHolder(b, text), IdOf)
  {
    SubseqKeepsIncreasing(SearchByHolder(b, text), b.accounts, IdOf);
  }

  /** The shape of cambiar_titular, cerrar_cuenta, consignar and retirar:
      find the account or raise, then let the account do the operation,
      propagating its error. Only the addressed account changes. */
  function Update(b: Bank, id: int, op: A.Op): (r: Result<Bank>)
    ensures FindById(b, id).None? ==> r == Err(NoSuchAccount(id))
    ensures FindById(b, id).Some? ==>
      var result := A.Apply(FindById(b, id).value, op);
      && (r.Ok? <==> result.Ok?)
      && (r.Err? ==> r.error == result.error)
      && (r.Ok? ==> FindById(r.value, id) == Some(result.value))
    ensures r.Ok? ==> r.value.nextId == b.nextId && |r.value.accounts| == |b.accounts|
    ensures r.Ok? ==> forall i :: 0 <= i < |b.accounts| ==>
      r.value.accounts[i].id == b.accounts[i].id
    ensures r.Ok? ==> forall i :: 0 <= i < |b.accounts| && b.accounts[i].id != id ==>
      r.value.accounts[i] == b.accounts[i]
    ensures r.Ok? && Inv(b) ==> Inv(r.value)
  {
    match FirstIndex(b.accounts, IdOf, id)
    case None => Err(NoSuchAccount(id))
    case Some(i) =>
      var a :- A.Apply(b.accounts[i], op);
      ReplaceKeepsFirst(b.accounts, IdOf, id, i, a);
      ReplaceKeepsInv(b, i, a);
      Ok(b.(accounts := b.accounts[i := a]))
  }

  /** Replacing an account by a valid one with the same id keeps Inv. */
  lemma ReplaceKeepsInv(b: Bank, i: nat, a: A.Account)
    requires i < |b.accounts|
    requires a.id == b.accounts[i].id
    requires Inv(b) ==> A.Valid(a)
    ensures Inv(b) ==> Inv(b.(accounts := b.accounts[i := a]))
  {
    if Inv(b) {
      ReplaceKeepsIncreasing(b.accounts, IdOf, i, a);
    }
  }

  /** cambiar_titular. */
  function Rename(b: Bank, id: int, holder: Option<string>): (r: Result<Bank>)
    ensures r.Ok? <==> FindById(b, id).Some? && HolderAccepted(holder)
    ensures r.Ok? ==> FindById(r.value, id) == Some(FindById(b, id).value.(holder := Strip(holder.value)))
  {
    Update(b, id, A.RenameOp(holder))
  }

  /** cerrar_cuenta. */
  function CloseAccount(b: Bank, id: int): (r: Result<Bank>)
    ensures r.Ok? <==> FindById(b, id).Some?
    ensures r.Ok? ==> FindById(r.value, id) == Some(A.Close(FindById(b, id).value))
  {
    Update(b, id, A.CloseOp)
  }

  /** consignar by id. */
  function Deposit(b: Bank, id: int, amount: real): (r: Result<Bank>)
    ensures r.Ok? <==> FindById(b, id).Some? && FindById(b, id).value.active && amount > 0.0
    ensures r.Ok? ==>
      FindById(r.value, id).Some? &&
      FindById(r.value, id).value.balance == FindById(b, id).value.balance + amount
  {
    Update(b, id, A.DepositOp(amount))
  }

  /** retirar by id, with the withdrawal rule of the account's own class. */
  function Withdraw(b: Bank, id: int, amount: real): (r: Result<Bank>)
    ensures r.Ok? <==>
      && FindById(b, id).Some?
      && var a := FindById(b, id).value;
      a.active && amount > 0.0 && a.balance - amount >= A.Floor(a.kind)
    ensures r.Ok? ==>
      FindById(r.value, id).Some? &&
      FindById(r.value, id).value.balance == FindById(b, id).value.balance - amount
  {
    Update(b, id, A.WithdrawOp(amount))
  }

  /** eliminar_cuenta: removes the first account with that id (the one
      _obtener_o_fallar returned) and keeps the rest in order. */
  function Remove(b: Bank, id: int): (r: Result<Bank>)
    ensures r.Err? <==> FindById(b, id).None?
    ensures r.Err? ==> r.error == NoSuchAccount(id)
    ensures r.Ok? ==> r.value.nextId == b.nextId && |r.value.accounts| == |b.accounts| - 1
    ensures r.Ok? ==> IsSubseq(r.value.accounts, b.accounts)
    ensures r.Ok? ==> multiset(r.value.accounts) == multiset(b.accounts) - multiset{FindById(b, id).value}
    ensures r.Ok? && Inv(b) ==> Inv(r.value) && FindById(r.value, id).None?
  {
    match FirstIndex(b.accounts, IdOf, id)
    case None => Err(NoSuchAccount(id))
    case Some(i) =>
      RemoveKeepsInv(b, id, i);
      Ok(b.(accounts := RemoveAt(b.accounts, i)))
  }

  /** Removing the first account with some id keeps Inv and, given unique
      ids, leaves no account with that id. */
  lemma RemoveKeepsInv(b: Bank, id: int, i: nat)
    requires FirstIndex(b.accounts, IdOf, id) == Some(i)
    ensures Inv(b) ==> Inv(b.(accounts := RemoveAt(b.accounts, i)))
    ensures Inv(b) ==> FirstIndex(RemoveAt(b.accounts, i), IdOf, id).None?
  {
    if Inv(b) {
      var rest := RemoveAt(b.accounts, i);
      RemoveFirstDropsKey(b.accounts, IdOf, id, i);
      SubseqMembers(rest, b.accounts);
    }
  }

  /** With unique ids, removal is the same as keeping every account whose id
      differs, in order. */
  lemma RemoveIsFilter(b: Bank, id: int)
    requires Inv(b)
    requires Remove(b, id).Ok?
    ensures Remove(b, id).value.accounts == Filter(b.accounts, KeyIsNot(IdOf, id))
  {
    var i := FirstIndex(b.accounts, IdOf, id).value;
    RemoveFirstIsFilter(b.accounts, IdOf, id, i);
  }

  /** Where aplicar_corte_mensual_a_todas stopped: the position of the account
      that raised and its error. */
  datatype Stop = Stop(index: nat, error: Error)

  datatype Settlement = Settlement(accounts: seq<A.Account>, stop: Option<Stop>)

  /** out is accts with the first k accounts settled and the rest untouched. */
  predicate SettledUpTo(accts: seq<A.Account>, out: seq<A.Account>, k: nat) {
    && |out| == |accts| && k <= |accts|
    && (forall i :: 0 <= i < k ==> A.Settle(accts[i]) == Ok(out[i]))
    && (forall i :: k <= i < |accts| ==> out[i] == accts[i])
  }

  /** The for loop of aplicar_corte_mensual_a_todas over accts: settles them
      in order and stops at the first one that raises. Accounts before it
      stay settled, it and the ones after it are untouched. */
  function SettleEach(accts: seq<A.Account>): (r: Settlement)
    ensures r.stop.None? ==> SettledUpTo(accts, r.accounts, |accts|)
    ensures r.stop.Some? ==>
      && r.stop.value.index < |accts|
      && A.Settle(accts[r.stop.value.index]) == Err(r.stop.value.error)
      && SettledUpTo(accts, r.accounts, r.stop.value.index)
    decreases |accts|
  {
    if accts == [] then Settlement([], None)
    else match A.Settle(accts[0])
      case Err(e) => Settlement(accts, Some(Stop(0, e)))
      case Ok(a) =>
        var rest := SettleEach(accts[1..]);
        match rest.stop
        case None =>
          SettledCons(accts, a, rest.accounts, |accts| - 1);
          Settlement([a] + rest.accounts, None)
        case Some(s) =>
          SettledCons(accts, a, rest.accounts, s.index);
          Settlement([a] + rest.accounts, Some(Stop(s.index + 1, s.error)))
  }

  /** Settling the head and then the first k of the tail settles the first
      k + 1 accounts. */
  lemma SettledCons(accts: seq<A.Account>, a: A.Account, out: seq<A.Account>, k: nat)
    requires accts != [] && A.Settle(accts[0]) == Ok(a)
    requires SettledUpTo(accts[1..], out, k)
    ensures SettledUpTo(accts, [a] + out, k + 1)
  {
    var r := [a] + out;
    forall i | 0 < i < |accts| ensures r[i] == out[i - 1] && accts[i] == accts[1..][i - 1] {
    }
  }

  /** The bank after the batch and the error it raised, if any. */
  datatype SettledBank = SettledBank(bank: Bank, failure: Option<Error>)

  /** aplicar_corte_mensual_a_todas. There is no try/except around the loop:
      the first error ends the batch, but the accounts settled before it
      keep their new balances. */
  function SettleAll(b: Bank): (r: SettledBank)
    ensures r.bank.nextId == b.nextId && |r.bank.accounts| == |b.accounts|
    ensures r.failure.None? <==> forall i :: 0 <= i < |b.accounts| ==> A.Settle(b.accounts[i]).Ok?
    ensures r.failure.None? ==> forall i :: 0 <= i < |b.accounts| ==> A.Settle(b.accounts[i]) == Ok(r.bank.accounts[i])
    ensures r.failure.Some? ==>
      exists k :: 0 <= k < |b.accounts| && A.Settle(b.accounts[k]) == Err(r.failure.value) &&
        SettledUpTo(b.accounts, r.bank.accounts, k)
    ensures forall i :: 0 <= i < |b.accounts| ==> r.bank.accounts[i].id == b.accounts[i].id
    ensures Inv(b) ==> Inv(r.bank)
  {
    var s := SettleEach(b.accounts);
    var after := Bank(s.accounts, b.nextId);
    SettleEachKeepsAccounts(b.accounts);
    SameIdsKeepInv(b, after);
    match s.stop
    case None => SettledBank(after, None)
    case Some(stop) =>
      assert A.Settle(b.accounts[stop.index]) == Err(stop.error) && SettledUpTo(b.accounts, after.accounts, stop.index);
      SettledBank(after, Some(stop.error))
  }

  /** Settling changes no id, keeps each account valid, and stops exactly
      when some account refuses its monthly cut. */
  lemma SettleEachKeepsAccounts(accts: seq<A.Account>)
    ensures forall i :: 0 <= i < |accts| ==>
      && SettleEach(accts).accounts[i].id == accts[i].id
      && (A.Valid(accts[i]) ==> A.Valid(SettleEach(accts).accounts[i]))
    ensures SettleEach(accts).stop.None? <==> forall i :: 0 <= i < |accts| ==> A.Settle(accts[i]).Ok?
  {
    var s := SettleEach(accts);
    forall i | 0 <= i < |accts|
      ensures s.accounts[i].id == accts[i].id && (A.Valid(accts[i]) ==> A.Valid(s.accounts[i]))
    {
      if s.stop.None? || i < s.stop.value.index {
        assert A.Settle(accts[i]) == Ok(s.accounts[i]);
      }
    }
  }

  /** Two banks with the same counter and, position by position, the same
      ids share the ordering part of Inv. */
  lemma SameIdsKeepInv(b: Bank, c: Bank)
    requires c.nextId == b.nextId && |c.accounts| == |b.accounts|
    requires forall i :: 0 <= i < |b.accounts| ==>
      c.accounts[i].id == b.accounts[i].id && (A.Valid(b.accounts[i]) ==> A.Valid(c.accounts[i]))
    ensures Inv(b) ==> Inv(c)
  {
    if Inv(b) {
      forall i, j | 0 <= i < j < |c.accounts| ensures IdOf(c.accounts[i]) < IdOf(c.accounts[j]) {
        assert IdOf(b.accounts[i]) < IdOf(b.accounts[j]);
      }
    }
  }
}
