/** Failure values shared by every revision of the bank model.
    The source raises a plain ValueError with a message in every failing
    case; each failure reason becomes one constructor of Error, so messages
    that word the same reason differently share a constructor. */
module Outcomes {

  datatype Error =
    | HolderMissing            // titular is None
    | HolderBlank              // titular is empty after strip()
    | NegativeInitialBalance
    | NegativeInterestRate
    | NegativeOverdraftLimit
    | NegativeFee
    | NonPositiveAmount        // deposit or withdrawal amount <= 0
    | AccountClosed
    | InsufficientFunds        // base or savings withdrawal beyond the balance
    | OverdraftExceeded        // checking withdrawal beyond the overdraft limit
    | FeeExceedsOverdraft      // checking monthly fee beyond the overdraft limit
    | NoSuchAccount(id: int)

  datatype Option<+T> = None | Some(value: T)

  /** Either the new value, or the error the source would have raised. */
  datatype Result<+T> = Ok(value: T) | Err(error: Error) {

    predicate IsFailure() {
      Err?
    }

    function PropagateFailure<U>(): Result<U>
      requires Err?
    {
      Err(error)
    }

    function Extract(): T
      requires Ok?
    {
      value
    }
  }
}
