/** Outcomes shared by every component.  `Error` has one constructor for each reason with
    which the ledger or the digest rejects its input. */
module Basics {
  datatype Option<+T> = None | Some(value: T)

  datatype Error =
    // an operation or one of its items
    | InvalidItem
    | AlreadyRegistered
    | NotRegistered
    | AccountNotFound
    | InventoryNotFound
    | NotListed
    | AlreadyListed
    | NotBlocksign
    | OwnerMismatch
    | NotASigner
    // fees, balances and signatures
    | UnknownCurrency
    | FeeFailed
    | BadBalance
    | UnknownKey
    | BelowThreshold
    // the proposal
    | DuplicatedSender
    // the digest
    | Readonly
    | NotInTree
    | WrongStateValue
    | BadOffset

  datatype Result<+T> = Ok(value: T) | Err(error: Error) {
    predicate IsFailure() { Err? }

    function PropagateFailure<U>(): Result<U>
      requires Err?
    {
      Err(error)
    }

    function Extract(): T
      requires Ok?
    {
      value
    }
  }
}
