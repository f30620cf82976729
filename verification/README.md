# Bank accounts: a Dafny model

This project models the domain logic of a small teaching repository about bank
accounts, in all three of its revisions:

- **Session 3** (`poo_sesion_3/models/cuentas.py`, `poo_sesion_3/services/banco_service.py`).
  This revision has an account hierarchy: `CuentaBase`, `CuentaAhorros` (savings, which earn
  interest at the monthly cut) and `CuentaCorriente` (checking, with an overdraft limit `cupo_sobregiro`
  and a monthly fee `cuota_manejo`). `BancoService` keeps them in an ordered list. It opens,
  finds, searches, renames, closes, removes, deposits and withdraws, and applies the monthly cut
  to every account (`aplicar_corte_mensual_a_todas`).
- **Session 2** (`poo_sesion2/models/cuenta.py`, `poo_sesion2/services/banco_service.py`).
  This revision has a single `CuentaBancaria` class with the base rules and no monthly cut. Its service
  has the same lookup and update surface.
- **First draft** (`clase_1.py`). This is a `CuentaBancaria` with only a holder and a balance.

Modules:

| module | file | models |
|---|---|---|
| `Outcomes` | outcomes.dfy | the `ValueError`s the source raises, one `Error` constructor per failure reason; `Result` and `Option` |
| `Text` | text.dfy | Python's `str.strip()`, `str.lower()` and substring `in` |
| `Lists` | lists.dfy | first match by key (`next(...)`), order-preserving filter (list comprehension), removal at a position |
| `Validation` | validation.dfy | the titular setter, `_set_saldo_inicial` and `_normalizar_monto`, which both revisions share word for word |
| `Accounts` | accounts.dfy | the session-3 hierarchy as one `Account` record with a `Kind` tag (`Base`, `Savings(rate)`, `Checking(overdraftLimit, fee)`) |
| `BankService` | bank_service.dfy | the session-3 `BancoService` |
| `BankHistory` | bank_history.dfy | arbitrary sequences of session-3 service calls |
| `PlainAccount`, `PlainBank` | plain_account.dfy, plain_bank.dfy | the session-2 account and service |
| `Draft` | draft.dfy | the first-draft account |
| `Revisions` | revisions.dfy | how the session-2 service sits inside the session-3 one |
| `Scenarios` | scenarios.dfy | concrete runs on the seed data of `poo_sesion_3/main.py` |

Accounts are immutable values, and every operation is a pure function. Each operation returns either the
new value or the error the source would raise. The source never changes a field and then
raises, so an error means nothing changed. Two operations are exceptions, and both return the new state
together with the outcome:

- Construction draws an id from the class counter before validating, so a failed opening still moves the counter.
- The monthly-cut batch has no `try`/`except`. It stops at the first account that raises, and the accounts
  settled before that one keep their new balances.

The class-level counter `_next_id` is the `nextId` field of the bank value. In session 3 it
belongs to `CuentaBase` and is shared by all three classes. Session 2 has its own counter. Both start at 1.

Money is `real`.

Three behaviours of the code are worth stating outright, because a reader might expect otherwise:

- Settle-all stops at the first account that raises (`poo_sesion_3/services/banco_service.py:86-87`); it
  does not attempt every account and collect the failures.
- Opening validates the holder before the initial balance, because the holder setter runs before
  `_set_saldo_inicial` (`poo_sesion_3/models/cuentas.py:25-29`).
- Every construction attempt uses up an id, even a failed one (`poo_sesion_3/models/cuentas.py:22-23`); the
  id is not tied to the append.

## Model

| member | source | states |
|---|---|---|
| `Text.Strip` | poo_sesion_3/models/cuentas.py:48 | neither end of the result of `strip()` is whitespace (Python's `isspace` code points). The result is empty exactly when the input is all whitespace |
| `Text.StripSlice` | poo_sesion_3/models/cuentas.py:48 | the result of `strip()` is a contiguous slice of the input with only whitespace before and after it |
| `Text.StripTrimmed` | poo_sesion_3/models/cuentas.py:48 | `strip()` leaves a string with no whitespace at either end unchanged |
| `Text.StripIdempotent` | poo_sesion_3/models/cuentas.py:48 | stripping twice gives the same as stripping once |
| `Text.Lower` | poo_sesion_3/services/banco_service.py:53 | the length is kept, no ASCII capital is left, each capital becomes its small letter, and every other character is kept |
| `Text.LowerIdempotent` | poo_sesion_3/services/banco_service.py:53 | lower-casing an already lower-cased string changes nothing |
| `Text.Contains` | poo_sesion_3/services/banco_service.py:56 | `needle in hay` holds exactly when needle occurs as a contiguous block at some position of hay |
| `Lists.FirstIndex` | poo_sesion_3/services/banco_service.py:50 | `next(...)` over the list: None exactly when no element has the key. Otherwise it gives a position holding the key with no earlier one |
| `Lists.Filter` | poo_sesion_3/services/banco_service.py:56 | the result is an order-preserving subsequence whose elements all pass the test, and every passing element appears in it |
| `Lists.FilterCounts` | poo_sesion_3/services/banco_service.py:56 | the comprehension keeps every copy of a passing element and no copy of a failing one: the count of each value is its count in the input if it passes, else 0 |
| `Validation.CheckInitialBalance` | poo_sesion_3/models/cuentas.py:97-101 | accepts exactly a non-negative starting balance and keeps it as given; otherwise the negative-balance error |
| `Validation.CheckAmount` | poo_sesion_3/models/cuentas.py:103-107 | accepts exactly a positive amount and returns it unchanged; otherwise the non-positive-amount error |
| `Validation.CheckHolder` | poo_sesion_3/models/cuentas.py:44-51 | None is refused with its own error, and so is text that is blank after strip. Otherwise the value kept is the stripped input, which is non-empty and has no whitespace at either end |
| `Accounts.NewBase` | poo_sesion_3/models/cuentas.py:21-31 | the counter always advances by one. Success comes exactly with an accepted holder and initial ≥ 0, and the holder error takes precedence. A new account is active, carries the old counter value as its id, has balance = initial and is valid |
| `Accounts.InitBase` | poo_sesion_3/models/cuentas.py:25-31 | with the id already drawn, the holder is checked first and the initial balance second. Success comes exactly when both are accepted, and gives an active base account holding the stripped holder |
| `Accounts.NewSavings` | poo_sesion_3/models/cuentas.py:132-137 | the counter advances even on failure. Base errors come first, then a negative rate. Success gives an active, valid savings account with balance = initial |
| `Accounts.NewChecking` | poo_sesion_3/models/cuentas.py:161-170 | the counter advances even on failure. The error order is base errors, then a negative overdraft limit, then a negative fee. Success gives an active, valid checking account |
| `Accounts.SetHolder` | poo_sesion_3/models/cuentas.py:44-51 | renaming succeeds exactly for an accepted holder, closed or not. Only the holder changes, to the stripped input, and validity is kept |
| `Accounts.EnsureActive` | poo_sesion_3/models/cuentas.py:109-111 | refuses exactly a closed account, with the closed-account error; an open account passes through unchanged |
| `Accounts.Deposit` | poo_sesion_3/models/cuentas.py:65-68 | a closed account fails first, then an amount ≤ 0 fails. On success only the balance changes, by exactly the amount |
| `Accounts.BaseWithdraw` | poo_sesion_3/models/cuentas.py:70-81 | succeeds iff the account is active and 0 < amount ≤ balance, with the errors in that order. Only the balance changes, to balance − amount ≥ 0 |
| `Accounts.CheckingWithdraw` | poo_sesion_3/models/cuentas.py:180-193 | succeeds iff the account is active, amount > 0 and balance − amount ≥ −limit. Otherwise it fails with the balance untouched |
| `Accounts.Withdraw` | poo_sesion_3/services/banco_service.py:77-80 | whatever the class, a withdrawal succeeds exactly when the account is active, the amount is positive, and the result stays at or above that class's floor (0, or −limit). Validity is kept |
| `Accounts.Close` | poo_sesion_3/models/cuentas.py:83-84 | the result is inactive and nothing else changes |
| `Accounts.CloseIdempotent` | poo_sesion_3/models/cuentas.py:83-84 | closing twice equals closing once |
| `Accounts.BaseSettle` | poo_sesion_3/models/cuentas.py:86-92 | the base monthly cut succeeds iff the account is active, and then changes nothing |
| `Accounts.SavingsSettle` | poo_sesion_3/models/cuentas.py:143-151 | fails iff the account is closed. Interest that is not positive changes nothing. With balance ≥ 0 and rate ≥ 0 the new balance is balance·(1+rate) ≥ balance |
| `Accounts.CheckingSettle` | poo_sesion_3/models/cuentas.py:195-208 | fails iff the account is closed, or the fee is positive and would take the balance below −limit. The fee is charged whole or not at all |
| `Accounts.Settle` | poo_sesion_3/models/cuentas.py:86-92 | the dispatched monthly cut refuses closed accounts, only ever changes the balance, and keeps validity. On a base account it changes nothing |
| `Accounts.Apply` | poo_sesion_3/models/cuentas.py:5-17 | no operation changes id or class, and every operation keeps validity. None reopens a closed account, and a closed account refuses deposit, withdraw and the monthly cut |
| `Accounts.RunKeepsInvariants` | poo_sesion_3/models/cuentas.py:5-17 | after any sequence of calls the account still has its id and class, and is still valid, in particular at or above its balance floor. A closed account stays closed with its balance frozen |
| `Accounts.ClosedAccountRefuses` | poo_sesion_3/models/cuentas.py:109-111 | on a closed account deposit, withdraw and the monthly cut all fail, but renaming still works |
| `Accounts.DepositThenWithdraw` | poo_sesion_3/models/cuentas.py:65-81 | withdrawing an amount just deposited restores the original account, in every class |
| `BankService.OpenSavings` | poo_sesion_3/services/banco_service.py:22-25 | the counter advances. On success exactly the new account is appended, carrying the old counter value. On failure the list is unchanged. The bank invariant is kept |
| `BankService.OpenChecking` | poo_sesion_3/services/banco_service.py:27-41 | the same as opening a savings account, with the checking constructor |
| `BankService.FindById` | poo_sesion_3/services/banco_service.py:49-50 | None exactly when no account has the id. Otherwise the first account in the list with that id |
| `BankService.FindByIdUnique` | poo_sesion_3/services/banco_service.py:49-50 | with increasing ids, the account found is the unique account in the list carrying that id |
| `BankService.Lookup` | poo_sesion_3/services/banco_service.py:105-109 | raises exactly when the find-by-id lookup returns None. Otherwise it returns the account that lookup found |
| `BankService.SearchByHolder` | poo_sesion_3/services/banco_service.py:52-56 | a blank query gives []. Otherwise an account is in the result iff its lower-cased holder contains the lower-cased stripped query. The result is a subsequence of the list |
| `BankService.SearchKeepsOrder` | poo_sesion_3/services/banco_service.py:52-56 | the matches come in list order, so their ids still increase |
| `BankService.Update` | poo_sesion_3/services/banco_service.py:58-80 | rename, close, deposit and withdraw by id share this shape. An unknown id fails. Otherwise the outcome is the account's own outcome and its error is passed through. Only the addressed account changes, and no id or the counter moves |
| `BankService.Rename` | poo_sesion_3/services/banco_service.py:58-60 | succeeds iff the id is known and the holder is accepted. The account is then found with the stripped holder |
| `BankService.CloseAccount` | poo_sesion_3/services/banco_service.py:62-64 | succeeds iff the id is known. The account is then found closed |
| `BankService.Deposit` | poo_sesion_3/services/banco_service.py:73-75 | succeeds iff the id is known, the account is active and the amount is positive. The balance then rises by the amount |
| `BankService.Withdraw` | poo_sesion_3/services/banco_service.py:77-80 | succeeds iff the id is known, the account is active, the amount is positive, and the result stays at or above the class floor. The balance then drops by the amount |
| `BankService.Remove` | poo_sesion_3/services/banco_service.py:66-68 | an unknown id fails with no change. Otherwise exactly the found account is removed (multiset difference) and the others keep their order. With unique ids, the id is then not found |
| `BankService.RemoveIsFilter` | poo_sesion_3/services/banco_service.py:66-68 | with unique ids, removal equals keeping every account whose id differs, in order |
| `BankService.SettleEach` | poo_sesion_3/services/banco_service.py:86-87 | the loop settles accounts in order. If one raises, every earlier account is settled, that account and all later ones are untouched, and its error is reported |
| `BankService.SettleAll` | poo_sesion_3/services/banco_service.py:82-87 | no failure iff every account accepts its monthly cut, and then each account is settled. On a failure, the reported error is that of the first refusing account: every account before it is settled, and it and every later account are untouched. Ids, length and counter never change, and the bank invariant is kept |
| `BankHistory.StepKeepsInv` | poo_sesion_3/services/banco_service.py:22-87 | every service call keeps the bank invariant (valid accounts, strictly increasing ids below the counter). The counter never moves back, and the only new ids are ones the counter had not reached |
| `BankHistory.ReplayKeepsInv` | poo_sesion_3/models/cuentas.py:19-23 | over any sequence of calls the invariant holds, the counter only grows, and every id present was present before or is fresh |
| `BankHistory.ReachableBankIsValid` | poo_sesion_3/models/cuentas.py:5-17 | every bank reachable from a fresh service has unique, increasing ids, and every account at or above its balance floor |
| `BankHistory.RemovedIdNeverReturns` | poo_sesion_3/services/banco_service.py:66-68 | after removal the old id is never found again, whatever calls (including openings) follow |
| `PlainAccount.New` | poo_sesion2/models/cuenta.py:17-29 | the counter always advances. Success iff the holder is accepted and initial ≥ 0, with holder errors first. A new account is active with balance = initial |
| `PlainAccount.SetHolder` | poo_sesion2/models/cuenta.py:44-52 | None and blank input are refused. Otherwise only the holder changes, to the stripped input |
| `PlainAccount.Deposit` | poo_sesion2/models/cuenta.py:70-74 | a closed account fails first, then an amount ≤ 0. On success the balance rises by exactly the amount and nothing else changes |
| `PlainAccount.Withdraw` | poo_sesion2/models/cuenta.py:76-83 | succeeds iff the account is active and 0 < amount ≤ balance. The new balance is balance − amount ≥ 0 |
| `PlainAccount.Close` | poo_sesion2/models/cuenta.py:85-87 | the result is inactive and nothing else changes |
| `PlainAccount.Apply` | poo_sesion2/models/cuenta.py:5-13 | no operation changes the id, and validity is kept. A closed account stays closed with its balance, and refuses deposit and withdraw |
| `PlainAccount.RunKeepsInvariants` | poo_sesion2/models/cuenta.py:9-13 | after any sequence of calls balance ≥ 0 and the holder is still valid. A closed account never reopens |
| `PlainAccount.BaseAccountRefinesPlain` | poo_sesion_3/models/cuentas.py:21-111 | the session-3 base account behaves exactly like the session-2 account in construction, rename, deposit, withdraw and close |
| `PlainBank.Open` | poo_sesion2/services/banco_service.py:22-25 | the counter advances. On success one account is appended with the old counter value as id. On failure the list is unchanged. The bank invariant is kept |
| `PlainBank.FindById` | poo_sesion2/services/banco_service.py:31-32 | None exactly when no account has the id. Otherwise the first account of the list with that id: no earlier account carries it |
| `PlainBank.Lookup` | poo_sesion2/services/banco_service.py:66-70 | raises exactly when the find-by-id lookup returns None |
| `PlainBank.SearchByHolder` | poo_sesion2/services/banco_service.py:34-38 | a blank query gives []. Otherwise exactly the case-insensitive substring matches, in list order |
| `PlainBank.Update` | poo_sesion2/services/banco_service.py:40-61 | an unknown id fails. Otherwise the account's own outcome is passed through, and only the addressed account changes |
| `PlainBank.Rename` | poo_sesion2/services/banco_service.py:40-42 | succeeds iff the id is known and the holder is accepted |
| `PlainBank.CloseAccount` | poo_sesion2/services/banco_service.py:44-46 | succeeds iff the id is known, and the account is then closed |
| `PlainBank.Deposit` | poo_sesion2/services/banco_service.py:55-57 | succeeds iff the id is known, the account is active and amount > 0. The balance then rises by the amount |
| `PlainBank.Withdraw` | poo_sesion2/services/banco_service.py:59-61 | succeeds iff the id is known, the account is active and 0 < amount ≤ balance |
| `PlainBank.Remove` | poo_sesion2/services/banco_service.py:48-50 | an unknown id fails with no change. Otherwise exactly that account is removed, the order is kept and the id is gone |
| `PlainBank.RemoveIsFilter` | poo_sesion2/services/banco_service.py:48-50 | with unique ids, removal equals filtering out that id |
| `Revisions.EmbedKeepsInv` | poo_sesion2/services/banco_service.py:16-25 | a session-2 bank keeps its invariant exactly when its image as a session-3 bank of base accounts keeps the session-3 one |
| `Revisions.FindAgrees` | poo_sesion2/services/banco_service.py:31-32 | find-by-id on the image finds the image of what the session-2 lookup finds, and fails on the same ids |
| `Revisions.OpenAgrees` | poo_sesion2/services/banco_service.py:22-25 | session-2 opening builds the image of the session-3 base account and leaves the image of the bank that the session-3 append leaves |
| `Revisions.ApplyAgrees` | poo_sesion2/models/cuenta.py:44-86 | rename, close, deposit and withdraw on a session-2 account give the same outcome and error as on its session-3 base image |
| `Revisions.UpdateAgrees` | poo_sesion2/services/banco_service.py:40-70 | find-or-raise followed by an account operation gives the same outcome in both revisions. Rename, close, deposit and withdraw by id are this with a fixed operation in both services |
| `Revisions.RemoveAgrees` | poo_sesion2/services/banco_service.py:48-50 | removal by id gives the same error, or the image of the same remaining list, in both revisions |
| `Revisions.FilterEmbeds` | poo_sesion2/services/banco_service.py:38 | filtering by holder and embedding commute, because embedding keeps the holder |
| `Revisions.SearchAgrees` | poo_sesion2/services/banco_service.py:34-38 | search by holder finds the images of the same accounts, in the same order, in both revisions |
| `Draft.New` | clase_1.py:4-10 | only a negative initial balance is refused. The holder is stored unvalidated |
| `Draft.Deposit` | clase_1.py:12-18 | succeeds iff amount > 0, adding exactly the amount |
| `Draft.Withdraw` | clase_1.py:20-29 | the amount check comes first, then the funds check. On success the balance becomes balance − amount ≥ 0 |
| `Draft.RunKeepsBalanceNonNegative` | clase_1.py:4-29 | after a valid construction the balance stays ≥ 0 whatever calls follow |
| `Draft.LaterRevisionKeepsRules` | poo_sesion2/models/cuenta.py:70-83 | on an open account the session-2 deposit and withdraw succeed exactly when the draft's do, fail for the same reason, and give the same balance |
| `Scenarios.SeedDataMonthlyCut` | poo_sesion_3/main.py:10-11 | the seed accounts get ids 1 and 2. One monthly cut gives Ana 101000 and Carlos 15000 |
| `Scenarios.OverdraftExample` | poo_sesion_3/models/cuentas.py:180-193 | 20000 with overdraft 50000: withdrawing 65000 leaves −45000, and a further 10000 is refused |
| `Scenarios.FeeRefusedExample` | poo_sesion_3/models/cuentas.py:195-208 | at −48000 with overdraft 50000, a 5000 fee is refused |
| `Scenarios.BatchStopsAtFirstRefusal` | poo_sesion_3/services/banco_service.py:82-87 | a refusing checking account at the front of the list leaves the savings account behind it unsettled |

## Left out

- `listar_cuentas` (both revisions) is `List`, which returns the account sequence. Sequences are values, so the
  copy the source makes is the sequence itself, and no contract is stated for it.
- Python object identity. Lookups return account values, not references. The source also lets a caller mutate an
  account through a returned reference; that is not modelled, and every change goes through the service.
  `list.remove` by identity is modelled as removal at the position the lookup found, which is the same thing.
- `retirar_generico` (`poo_sesion_3/services/banco_service.py:92-100`) is left out. It is a `hasattr` duck-typing
  demonstration with no rule of its own; withdrawals by id go through `BankService.Withdraw`.
- `__str__`, `tipo()` and the property getters are formatting and read access only.
- The interactive consoles, both `main.py` files (other than as the `Scenarios` data), `clase_2.py`, and the
  script at the bottom of `clase_1.py` are left out.
- Floating point is not modelled. Money is `real`, so there is no rounding of `saldo * tasa`, and there are no
  NaN or infinite amounts (a NaN would slip past `monto <= 0` in the source). The `float()` coercions are
  identities.
- `str(value)` on a holder that is not a string is not modelled. The holder input is `Option<string>`, where
  `None` is Python's `None`. The same goes for `str(texto)` on the search query
  (`poo_sesion_3/services/banco_service.py:53`, `poo_sesion2/services/banco_service.py:35`): the query is a
  `string`, so a `None` query, which Python would turn into the text "None" and search for, is not modelled.
- Draft.New: the holder is a `string`. The draft stores whatever object it is given, `None` included, without
  any check (`clase_1.py:9`); holders that are not strings are not modelled.
- Default arguments (`saldo_inicial=0.0`, `tasa_interes=0.01`, `cupo_sobregiro=0.0`, `cuota_manejo=0.0`) are
  not modelled; callers pass every argument.
- The counter is held in each bank value. Two session-3 services in one process would share one counter in
  the source, and that sharing is not modelled.
- BankService.SearchByHolder: the lower-casing covers the ASCII letters A–Z only, not all of Python's Unicode
  `str.lower()`.
- PlainBank.SearchByHolder: the same ASCII-only lower-casing.
- Text.Lower: only the ASCII letters A–Z are lowered. Python's `str.lower()` also lowers other Unicode
  capitals (and can change the length, as for U+0130), which is not modelled.
- Text.Strip: whitespace is the set of code points for which Python's `str.isspace()` holds; nothing beyond
  that is modelled.
- Draft.LaterRevisionKeepsRules: compares failure reasons, not message text. Error messages are not modelled.
  The draft words its amount errors per operation (`clase_1.py:16`, `clase_1.py:24`), where the later revisions
  share one message (`poo_sesion_3/models/cuentas.py:106`); all three are `NonPositiveAmount`.
- Session 2 has no sequence-of-commands lemmas like `BankHistory`. Its per-call contracts already state that
  every call keeps the bank invariant.
