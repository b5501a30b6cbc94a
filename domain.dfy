/** The account entity shared by every layer, and the error kinds the layers report. */
module Domain {

  /** Monetary amounts. The source uses C# `decimal`, an exact base-10 type, so the model
      uses exact `real` arithmetic. */
  type Money = real

  /** The value of an account at one instant: what the store holds for it. */
  datatype AccountRecord = AccountRecord(id: int, owner: string, balance: Money)

  /** The account record as a mutable object. The store hands out the very object it
      holds, so a caller that changes a field changes the store. */
  class Account {
    var id: int
    var owner: string
    var balance: Money

    /** `new Account { Owner = ..., Balance = ... }`: `Id` keeps the C# default 0
        until the store assigns one. */
    constructor (owner: string, balance: Money)
      ensures id == 0 && this.owner == owner && this.balance == balance
    {
      this.id := 0;
      this.owner := owner;
      this.balance := balance;
    }

    /** The current field values of this object. */
    function Record(): AccountRecord
      reads this
    {
      AccountRecord(id, owner, balance)
    }
  }

  /** The failures the core reports, one per thrown exception. */
  datatype Error =
    | InvalidAmount            // amount <= 0
    | SameAccount              // transfer from an account to itself
    | AccountNotFound          // no stored account has the id
    | InsufficientFunds        // debit larger than the balance
    | OwnerEmpty               // creation with a null, empty or white-space owner
    | NegativeInitialBalance   // creation with an initial balance below 0
    | NullAccount              // update called with no account

  /** The .NET exception type that the source throws for each error. */
  datatype ExceptionKind = ArgumentException | InvalidOperationException | ArgumentNullException

  function KindOf(e: Error): (k: ExceptionKind)
    ensures k == InvalidOperationException <==> e == InsufficientFunds
    ensures k == ArgumentNullException <==> e == NullAccount
  {
    match e
    case InsufficientFunds => InvalidOperationException
    case NullAccount => ArgumentNullException
    case _ => ArgumentException
  }
}
