/** The private validators sessions 2 and 3 share word for word:
    the holder setter, the initial-balance check and the amount check. */
module Validation {
  import opened Text
  import opened Outcomes

  /** What a stored holder always looks like: non-empty, with no whitespace
      at either end, so that strip() leaves it unchanged (StripTrimmed). */
  predicate ValidHolder(h: string) {
    h != [] && Trimmed(h)
  }

  /** The holder setter accepts value exactly when this holds. */
  predicate HolderAccepted(value: Option<string>) {
    value.Some? && !AllSpace(value.value)
  }

  /** The titular setter: None and blank text are refused; otherwise the
      stored holder is the stripped input. */
  function CheckHolder(value: Option<string>): (r: Result<string>)
    ensures r.Ok? <==> HolderAccepted(value)
    ensures value.None? ==> r == Err(HolderMissing)
    ensures value.Some? && AllSpace(value.value) ==> r == Err(HolderBlank)
    ensures r.Ok? ==> r.value == Strip(value.value) && ValidHolder(r.value)
  {
    if value.None? then Err(HolderMissing)
    else
      var h := Strip(value.value);
      if h == [] then Err(HolderBlank)
      else Ok(h)
  }

  /** _set_saldo_inicial: a negative starting balance is refused. */
  function CheckInitialBalance(initial: real): (r: Result<real>)
    ensures r.Ok? <==> initial >= 0.0
    ensures r.Ok? ==> r.value == initial
    ensures r.Err? ==> r.error == NegativeInitialBalance
  {
    if initial < 0.0 then Err(NegativeInitialBalance) else Ok(initial)
  }

  /** _normalizar_monto: an operation amount must be strictly positive. */
  function CheckAmount(amount: real): (r: Result<real>)
    ensures r.Ok? <==> amount > 0.0
    ensures r.Ok? ==> r.value == amount
    ensures r.Err? ==> r.error == NonPositiveAmount
  {
    if amount <= 0.0 then Err(NonPositiveAmount) else Ok(amount)
  }
}
