/** How the session-2 service relates to the session-3 one. A session-2
    CuentaBancaria is a session-3 CuentaBase (PlainAccount.Embed); a
    session-2 bank, seen this way, is a session-3 bank holding only base
    accounts, and every operation both services offer gives the same
    outcome on both sides. */
module Revisions {
  import opened Outcomes
  import opened Lists
  import Text
  import A = Accounts
  import P = PlainAccount
  import PB = PlainBank
  import BS = BankService

  /** Every account of s, seen as a session-3 base account. */
  function EmbedAll(s: seq<P.Account>): (r: seq<A.Account>)
    ensures |r| == |s|
    ensures forall i :: 0 <= i < |s| ==> r[i] == P.Embed(s[i])
  {
    seq(|s|, i requires 0 <= i < |s| => P.Embed(s[i]))
  }

  function EmbedBank(b: PB.Bank): BS.Bank {
    BS.Bank(EmbedAll(b.accounts), b.nextId)
  }

  function EmbedBankResult(r: Result<PB.Bank>): Result<BS.Bank> {
    match r
    case Ok(b) => Ok(EmbedBank(b))
    case Err(e) => Err(e)
  }

  function EmbedFound(r: Option<P.Account>): Option<A.Account> {
    match r
    case None => None
    case Some(a) => Some(P.Embed(a))
  }

  /** A session-2 bank satisfies its invariant exactly when its session-3
      image satisfies the session-3 one. */
  lemma EmbedKeepsInv(b: PB.Bank)
    ensures BS.Inv(EmbedBank(b)) <==> PB.Inv(b)
  {
    var s := b.accounts;
    var e := EmbedAll(s);
    forall i | 0 <= i < |s| ensures A.Valid(e[i]) <==> P.Valid(s[i]) {
      P.BaseAccountRefinesPlain(s[i], 0.0, None, 0, 0.0);
    }
    assert StrictlyIncreasing(e, BS.IdOf) <==> StrictlyIncreasing(s, PB.IdOf) by {
      forall i | 0 <= i < |s| ensures BS.IdOf(e[i]) == PB.IdOf(s[i]) {
      }
    }
  }

  /** The embedding keeps every id in place, so the first position holding
      an id is the same on both sides. */
  lemma {:induction false} EmbedFirstIndex(s: seq<P.Account>, id: int)
    ensures FirstIndex(EmbedAll(s), BS.IdOf, id) == FirstIndex(s, PB.IdOf, id)
    decreases |s|
  {
    if s != [] {
      assert EmbedAll(s)[1..] == EmbedAll(s[1..]);
      EmbedFirstIndex(s[1..], id);
    }
  }

  /** buscar_por_id finds the same account in both revisions. */
  lemma FindAgrees(b: PB.Bank, id: int)
    ensures BS.FindById(EmbedBank(b), id) == EmbedFound(PB.FindById(b, id))
  {
    EmbedFirstIndex(b.accounts, id);
  }

  lemma AppendEmbeds(s: seq<P.Account>, a: P.Account)
    ensures EmbedAll(s + [a]) == EmbedAll(s) + [P.Embed(a)]
  {
    assert forall i :: 0 <= i < |s| ==> (s + [a])[i] == s[i];
  }

  /** abrir_cuenta of session 2 is the session-3 append of a freshly built
      CuentaBase, and it builds the same account. */
  lemma OpenAgrees(b: PB.Bank, holder: Option<string>, initial: real)
    ensures P.EmbedResult(PB.Open(b, holder, initial).account) == A.NewBase(b.nextId, holder, initial).account
    ensures EmbedBank(PB.Open(b, holder, initial).bank) == BS.Attach(EmbedBank(b), A.NewBase(b.nextId, holder, initial)).bank
  {
    var c := P.New(b.nextId, holder, initial);
    P.BaseAccountRefinesPlain(P.Account(0, [], 0.0, false), 0.0, holder, b.nextId, initial);
    if c.account.Ok? {
      AppendEmbeds(b.accounts, c.account.value);
    }
  }

  lemma ReplaceEmbeds(s: seq<P.Account>, i: nat, a: P.Account)
    requires i < |s|
    ensures EmbedAll(s[i := a]) == EmbedAll(s)[i := P.Embed(a)]
  {
  }

  /** The session-3 operation with the same name and arguments. */
  function Lift(op: P.Op): A.Op {
    match op
    case RenameOp(h) => A.RenameOp(h)
    case CloseOp => A.CloseOp
    case DepositOp(m) => A.DepositOp(m)
    case WithdrawOp(m) => A.WithdrawOp(m)
  }

  /** Each session-2 account operation gives the same outcome as its
      session-3 counterpart on the embedded account. */
  lemma ApplyAgrees(a: P.Account, op: P.Op)
    ensures P.EmbedResult(P.Apply(a, op)) == A.Apply(P.Embed(a), Lift(op))
  {
    match op
    case RenameOp(h) => P.BaseAccountRefinesPlain(a, 0.0, h, 0, 0.0);
    case CloseOp => P.BaseAccountRefinesPlain(a, 0.0, None, 0, 0.0);
    case DepositOp(m) => P.BaseAccountRefinesPlain(a, m, None, 0, 0.0);
    case WithdrawOp(m) => P.BaseAccountRefinesPlain(a, m, None, 0, 0.0);
  }

  /** Find-or-raise then apply gives the same outcome in both revisions. */
  lemma UpdateAgrees(b: PB.Bank, id: int, op: P.Op)
    ensures EmbedBankResult(PB.Update(b, id, op)) == BS.Update(EmbedBank(b), id, Lift(op))
  {
    var e := EmbedBank(b);
    EmbedFirstIndex(b.accounts, id);
    match FirstIndex(b.accounts, PB.IdOf, id)
    case None =>
    case Some(i) =>
      var r := P.Apply(b.accounts[i], op);
      ApplyAgrees(b.accounts[i], op);
      assert e.accounts[i] == P.Embed(b.accounts[i]);
      if r.Ok? {
        ReplaceEmbeds(b.accounts, i, r.value);
        assert PB.Update(b, id, op) == Ok(b.(accounts := b.accounts[i := r.value]));
        assert BS.Update(e, id, Lift(op)) == Ok(e.(accounts := e.accounts[i := P.Embed(r.value)]));
      } else {
        assert PB.Update(b, id, op) == Err(r.error);
        assert BS.Update(e, id, Lift(op)) == Err(r.error);
      }
  }

  lemma RemoveEmbeds(s: seq<P.Account>, i: nat)
    requires i < |s|
    ensures EmbedAll(RemoveAt(s, i)) == RemoveAt(EmbedAll(s), i)
  {
  }

  /** eliminar_cuenta gives the same outcome in both revisions. */
  lemma RemoveAgrees(b: PB.Bank, id: int)
    ensures EmbedBankResult(PB.Remove(b, id)) == BS.Remove(EmbedBank(b), id)
  {
    EmbedFirstIndex(b.accounts, id);
    match FirstIndex(b.accounts, PB.IdOf, id)
    case None =>
    case Some(i) =>
      RemoveEmbeds(b.accounts, i);
  }

  lemma EmbedCons(x: P.Account, t: seq<P.Account>)
    ensures EmbedAll([x] + t) == [P.Embed(x)] + EmbedAll(t)
  {
    var l, r := EmbedAll([x] + t), [P.Embed(x)] + EmbedAll(t);
    forall i | 0 <= i < |l| ensures l[i] == r[i] {
      if i > 0 {
        assert ([x] + t)[i] == t[i - 1];
      }
    }
  }

  /** Filtering by holder commutes with the embedding, which keeps holders. */
  lemma {:induction false} FilterEmbeds(s: seq<P.Account>, query: string)
    ensures EmbedAll(Filter(s, PB.HolderMatches(query))) == Filter(EmbedAll(s), BS.HolderMatches(query))
    decreases |s|
  {
    if s != [] {
      var t := Filter(s[1..], PB.HolderMatches(query));
      assert EmbedAll(s)[1..] == EmbedAll(s[1..]);
      assert BS.HolderMatches(query)(P.Embed(s[0])) == PB.HolderMatches(query)(s[0]);
      FilterEmbeds(s[1..], query);
      if PB.HolderMatches(query)(s[0]) {
        EmbedCons(s[0], t);
      }
    }
  }

  /** buscar_por_titular finds the same accounts, in the same order, in both
      revisions. */
  lemma SearchAgrees(b: PB.Bank, text: string)
    ensures EmbedAll(PB.SearchByHolder(b, text)) == BS.SearchByHolder(EmbedBank(b), text)
  {
    FilterEmbeds(b.accounts, Text.Lower(Text.Strip(text)));
  }
}
