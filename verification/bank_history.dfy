/** Sequences of registry commands on the session-3 service: every bank
    reachable from a fresh service satisfies Inv, and an id, once removed,
    never comes back. */
module BankHistory {
  import opened Outcomes
  import opened Lists
  import A = Accounts
  import opened BankService

  /** The service calls a caller can make, with their arguments. */
  datatype Command =
    | OpenSavingsCmd(holder: Option<string>, initial: real, rate: real)
    | OpenCheckingCmd(holder: Option<string>, initial: real, limit: real, fee: real)
    | RenameCmd(id: int, newHolder: Option<string>)
    | CloseCmd(id: int)
    | RemoveCmd(id: int)
    | DepositCmd(id: int, amount: real)
    | WithdrawCmd(id: int, amount: real)
    | SettleAllCmd

  /** The bank if r succeeded, b if it raised. */
  function OrKeep(r: Result<Bank>, b: Bank): Bank {
    match r
    case Ok(after) => after
    case Err(_) => b
  }

  /** The bank after one command, whether or not it raised: a failed opening
      still used up an id, and a failed batch keeps what it settled. */
  function Step(b: Bank, c: Command): Bank {
    match c
    case OpenSavingsCmd(h, initial, rate) => OpenSavings(b, h, initial, rate).bank
    case OpenCheckingCmd(h, initial, limit, fee) => OpenChecking(b, h, initial, limit, fee).bank
    case RenameCmd(id, h) => OrKeep(Rename(b, id, h), b)
    case CloseCmd(id) => OrKeep(CloseAccount(b, id), b)
    case RemoveCmd(id) => OrKeep(Remove(b, id), b)
    case DepositCmd(id, m) => OrKeep(Deposit(b, id, m), b)
    case WithdrawCmd(id, m) => OrKeep(Withdraw(b, id, m), b)
    case SettleAllCmd => SettleAll(b).bank
  }

  function Replay(b: Bank, cs: seq<Command>): Bank
    decreases |cs|
  {
    if cs == [] then b else Replay(Step(b, cs[0]), cs[1..])
  }

  /** Every id of after was already in before or was drawn from the counter
      at or after its value in before. */
  predicate IdsFrom(before: Bank, after: Bank) {
    forall x :: x in Ids(after) ==> x in Ids(before) || x >= before.nextId
  }

  lemma SameIdsSameSet(b: Bank, c: Bank)
    requires |c.accounts| == |b.accounts|
    requires forall i :: 0 <= i < |b.accounts| ==> c.accounts[i].id == b.accounts[i].id
    ensures Ids(c) == Ids(b)
  {
    forall x | x in Ids(c) ensures x in Ids(b) {
      var i :| 0 <= i < |c.accounts| && c.accounts[i].id == x;
      assert b.accounts[i].id == x;
    }
    forall x | x in Ids(b) ensures x in Ids(c) {
      var i :| 0 <= i < |b.accounts| && b.accounts[i].id == x;
      assert c.accounts[i].id == x;
    }
  }

  lemma SubseqIds(b: Bank, c: Bank)
    requires IsSubseq(c.accounts, b.accounts)
    ensures Ids(c) <= Ids(b)
  {
    SubseqMembers(c.accounts, b.accounts);
    forall x | x in Ids(c) ensures x in Ids(b) {
      var i :| 0 <= i < |c.accounts| && c.accounts[i].id == x;
      var j :| 0 <= j < |b.accounts| && b.accounts[j] == c.accounts[i];
      assert b.accounts[j].id == x;
    }
  }

  lemma AppendIds(b: Bank, a: A.Account, c: Bank)
    requires c.accounts == b.accounts + [a]
    ensures forall x :: x in Ids(c) ==> x in Ids(b) || x == a.id
  {
    forall x | x in Ids(c) ensures x in Ids(b) || x == a.id {
      var i :| 0 <= i < |c.accounts| && c.accounts[i].id == x;
      if i < |b.accounts| {
        assert b.accounts[i].id == x;
      }
    }
  }

  lemma UpdateIds(b: Bank, r: Result<Bank>)
    requires r.Ok? ==> |r.value.accounts| == |b.accounts|
    requires r.Ok? ==> forall i :: 0 <= i < |b.accounts| ==> r.value.accounts[i].id == b.accounts[i].id
    ensures Ids(OrKeep(r, b)) == Ids(b)
  {
    if r.Ok? {
      SameIdsSameSet(b, r.value);
    }
  }

  /** One command keeps Inv, never moves the counter back, and only ever
      brings in ids the counter had not reached yet. */
  lemma StepKeepsInv(b: Bank, c: Command)
    requires Inv(b)
    ensures Inv(Step(b, c))
    ensures b.nextId <= Step(b, c).nextId
    ensures IdsFrom(b, Step(b, c))
  {
    match c
    case OpenSavingsCmd(h, initial, rate) =>
      var r := OpenSavings(b, h, initial, rate);
      if r.account.Ok? {
        AppendIds(b, r.account.value, r.bank);
      }
    case OpenCheckingCmd(h, initial, limit, fee) =>
      var r := OpenChecking(b, h, initial, limit, fee);
      if r.account.Ok? {
        AppendIds(b, r.account.value, r.bank);
      }
    case RenameCmd(id, h) => UpdateIds(b, Rename(b, id, h));
    case CloseCmd(id) => UpdateIds(b, CloseAccount(b, id));
    case DepositCmd(id, m) => UpdateIds(b, Deposit(b, id, m));
    case WithdrawCmd(id, m) => UpdateIds(b, Withdraw(b, id, m));
    case RemoveCmd(id) =>
      var r := Remove(b, id);
      if r.Ok? {
        SubseqIds(b, r.value);
      }
    case SettleAllCmd =>
      SameIdsSameSet(b, SettleAll(b).bank);
  }

  lemma {:induction false} ReplayKeepsInv(b: Bank, cs: seq<Command>)
    requires Inv(b)
    ensures Inv(Replay(b, cs))
    ensures b.nextId <= Replay(b, cs).nextId
    ensures IdsFrom(b, Replay(b, cs))
    decreases |cs|
  {
    if cs != [] {
      var mid := Step(b, cs[0]);
      StepKeepsInv(b, cs[0]);
      ReplayKeepsInv(mid, cs[1..]);
    }
  }

  /** Whatever commands were issued since start-up, ids are unique and in
      increasing order, and every account sits at or above its balance floor. */
  lemma ReachableBankIsValid(cs: seq<Command>)
    ensures Inv(Replay(Empty(), cs))
    ensures forall a :: a in Replay(Empty(), cs).accounts ==> a.balance >= A.Floor(a.kind)
  {
    ReplayKeepsInv(Empty(), cs);
  }

  /** After eliminar_cuenta, buscar_por_id on the old id finds nothing, and
      no later command (in particular no later opening) brings it back. */
  lemma RemovedIdNeverReturns(b: Bank, id: int, cs: seq<Command>)
    requires Inv(b)
    requires Remove(b, id).Ok?
    ensures FindById(Replay(Remove(b, id).value, cs), id).None?
  {
    var removed := Remove(b, id).value;
    assert id !in Ids(removed);
    assert id < removed.nextId by {
      var a := FindById(b, id).value;
      assert a in b.accounts;
    }
    ReplayKeepsInv(removed, cs);
    var final := Replay(removed, cs);
    forall i | 0 <= i < |final.accounts| ensures final.accounts[i].id != id {
      assert final.accounts[i].id in Ids(final);
    }
  }
}
