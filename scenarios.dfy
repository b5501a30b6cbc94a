/** The whole stack wired together as the application wires it: one store, one
    account service over it, one transaction engine over that. */
module Scenarios {
  import opened Wrappers
  import opened Domain
  import opened Repository
  import opened AccountServices
  import opened Transactions

  /** The two accounts opened with 1000 and 500, and the same after 300 has moved. */
  function Opening(): seq<AccountRecord>
  {
    [AccountRecord(1, "Alice", 1000.0), AccountRecord(2, "Bob", 500.0)]
  }

  function Moved(): seq<AccountRecord>
  {
    [AccountRecord(1, "Alice", 700.0), AccountRecord(2, "Bob", 800.0)]
  }

  /** A fresh store hands id 1 to the first account created. */
  method OpenFirstAccount() returns (accounts: AccountService)
    ensures accounts.Valid() && accounts.repository.Records() == Opening()[..1]
    ensures accounts.repository.nextId == 2
    ensures fresh(accounts.repository)
    ensures forall k :: 0 <= k < |accounts.repository.accounts| ==> fresh(accounts.repository.accounts[k])
  {
    var repository := new InMemoryAccountRepository();
    accounts := new AccountService(repository);
    assert !IsNullOrWhiteSpace(Some("Alice")) by { assert !IsWhiteSpace("Alice"[0]); }
    assert [] + Opening()[..1] == Opening()[..1];
    var created := accounts.Create(CreateAccountDto(Some("Alice"), 1000.0));
  }

  /** ... and id 2 to the second. */
  method OpenTwoAccounts() returns (engine: TransactionService)
    ensures engine.Valid() && engine.Ledger() == Opening()
    ensures fresh(engine.accountService.repository)
    ensures forall k :: 0 <= k < |engine.accountService.repository.accounts| ==>
              fresh(engine.accountService.repository.accounts[k])
  {
    var accounts := OpenFirstAccount();
    assert !IsNullOrWhiteSpace(Some("Bob")) by { assert !IsWhiteSpace("Bob"[0]); }
    assert Opening()[..1] + [AccountRecord(2, "Bob", 500.0)] == Opening();
    var created := accounts.Create(CreateAccountDto(Some("Bob"), 500.0));
    engine := new TransactionService(accounts);
  }

  /** Moving 300 from the first account to the second leaves 700 and 800. */
  method TransferBetweenNewAccounts() returns (engine: TransactionService, moved: Result<bool, Error>)
    ensures moved == Success(true) && engine.Valid() && engine.Ledger() == Moved()
    ensures fresh(engine.accountService.repository)
  {
    engine := OpenTwoAccounts();
    assert FindIndex(Opening(), 1) == Some(0) && FindIndex(Opening(), 2) == Some(1);
    TransferAt(Opening(), 1, 2, 300.0, 0, 1);
    assert SetBalance(Opening(), 0, 700.0) == [AccountRecord(1, "Alice", 700.0), AccountRecord(2, "Bob", 500.0)];
    assert SetBalance(SetBalance(Opening(), 0, 700.0), 1, 800.0) == Moved();
    moved := engine.Transfer(1, 2, 300.0);
  }

  /** After that transfer a further 1000 cannot be moved, a deposit to an id never
      handed out is refused, and the two accounts read back as 700 and 800. */
  method RefusedAfterTransfer(engine: TransactionService) returns (overdraw: Result<bool, Error>,
                                                                   unknown: Result<bool, Error>,
                                                                   from: Option<AccountDto>, to: Option<AccountDto>)
    requires engine.Valid() && engine.Ledger() == Moved()
    modifies engine.accountService.repository.accounts
    ensures overdraw == Failure(InsufficientFunds) && KindOf(overdraw.error) == InvalidOperationException
    ensures unknown == Failure(AccountNotFound) && KindOf(unknown.error) == ArgumentException
    ensures from == Some(AccountDto(1, "Alice", 700.0)) && to == Some(AccountDto(2, "Bob", 800.0))
  {
    assert FindIndex(Moved(), 1) == Some(0) && FindIndex(Moved(), 2) == Some(1);
    TransferOutcome(Moved(), 1, 2, 1000.0);
    overdraw := engine.Transfer(1, 2, 1000.0);
    FindIndexFirst(Moved(), 3);
    unknown := engine.Deposit(3, 50.0);
    from := engine.accountService.GetAccountDtoById(1);
    to := engine.accountService.GetAccountDtoById(2);
  }
}
