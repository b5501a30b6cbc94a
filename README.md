# BankingSolution ledger and transaction engine in Dafny

This project models the core of BankingSolution, a small ASP.NET banking service. The core has three layers, and each layer calls only the one below it:

- **The in-memory account store** (`InMemoryAccountRepository`). It holds a list of account objects in insertion order and an auto-increment id counter that starts at 1. `Add` gives an account the next id and appends it. `GetById` returns the first stored account with the id, or null. `GetAll` returns the list. `Update` copies owner and balance onto the stored account with the same id, and throws when there is none.
- **The account service** (`AccountService`). It validates creation requests: the owner must not be null, empty or white space, and the initial balance must not be negative. It forwards lookups and updates to the store and maps accounts to DTOs.
- **The transaction engine** (`TransactionService`). It provides `Deposit`, `Withdraw` and `Transfer`. Each one checks, in a fixed order:
  1. the amount is positive;
  2. for a transfer, the two ids differ;
  3. the accounts exist;
  4. for a debit, the funds suffice.

  Only then does it change balances. It changes them on the very objects the store holds and then writes them back through the account service.

The model keeps that structure.

- **Classes.** Each layer is a class: `Repository.InMemoryAccountRepository`, `AccountServices.AccountService` and `Transactions.TransactionService`. Accounts are heap objects (`Domain.Account`).
  - The store's list is a `seq<Account>`.
  - A lookup returns the stored object itself, so the engine's `balance +=` changes the store before the write-back. The write-back then copies the object onto itself.
- **Specification on values.** Beside each class, pure functions say what the operations do to the store's content taken as values: a `seq<AccountRecord>` together with the counter. These functions are `FindIndex`, `Replace`, `Appended`, `Created`, `ApplyDeposit`, `ApplyWithdraw` and `ApplyTransfer`.
  - Every state-changing method is proved to take the store from `old(Records())` to exactly what the function computes. On failure the store's content is unchanged.
  - Lemmas then prove the promised properties about these functions.
- **Errors.** Exceptions become values: `Result`/`Outcome` carrying an `Error`, together with the .NET exception kind each error is thrown as (`Domain.KindOf`).
- **Money.** C# `decimal` is exact base-10 arithmetic. It is modelled as `real`.

"No write before every check has passed" is observable in two ways.

- Every rejected call ends with `Ledger() == old(Ledger())`.
- The first write in each engine method comes after the last check in its body.

The store invariant is `WellFormed`: ids are at least 1, strictly increasing in list order, and below the counter. `Add`, `Update`, `Create`, `UpdateAccount` and all three engine operations preserve it. The engine also preserves "all balances are non-negative".

## Model

| member | source | states |
|---|---|---|
| Domain.Account.constructor | BankingSolution/Services/AccountService.cs:24-28 | a new account carries the requested owner and balance and the default id 0 until the store assigns one |
| Domain.KindOf | BankingSolution/Services/TransactionService.cs:48-73 | insufficient funds is the only error thrown as InvalidOperationException; a null account is the only ArgumentNullException; everything else is an ArgumentException. The same mapping covers the throws at AccountService.cs lines 56, 76 and 78 and InMemoryAccountRepository.cs line 30 |
| Repository.FindIndex | BankingSolution/Repositories/InMemoryAccountRepository.cs:20 | the first-match lookup on values: a position it reports is in range and holds the id |
| Repository.Appended | BankingSolution/Repositories/InMemoryAccountRepository.cs:13-17 | `Add` on values: exactly one record is appended, carrying the counter's id and the given owner and balance, after all earlier records unchanged |
| Repository.Replace | BankingSolution/Repositories/InMemoryAccountRepository.cs:26-35 | `Update` on values: the only failure is "account not found", and a success keeps the number of records |
| Repository.FindIndexFirst | BankingSolution/Repositories/InMemoryAccountRepository.cs:20 | the lookup fails exactly when no record has the id, and otherwise reports the first position holding it |
| Repository.FindStored | BankingSolution/Repositories/InMemoryAccountRepository.cs:10-20 | in a well-formed store every stored id is found at exactly the position where it is stored |
| Repository.FindIndexSameIds | BankingSolution/Repositories/InMemoryAccountRepository.cs:20 | a lookup depends only on the ids, so a store with the same ids in the same places answers at the same position |
| Repository.WellFormedSameIds | BankingSolution/Repositories/InMemoryAccountRepository.cs:26-35 | a change that keeps every id in place (as `Update` does) keeps the store invariant |
| Repository.AddKeepsWellFormed | BankingSolution/Repositories/InMemoryAccountRepository.cs:10-17 | adding with the counter's id keeps ids strictly increasing and below the incremented counter, keeps every earlier record, and the new account is found under its id |
| Repository.ReplaceEffect | BankingSolution/Repositories/InMemoryAccountRepository.cs:26-35 | an update fails with "account not found" exactly when the id is absent; otherwise it keeps every id, sets owner and balance of that one record and leaves all other records as they were |
| Repository.ReplaceWithStored | BankingSolution/Repositories/InMemoryAccountRepository.cs:26-35 | writing back a record that the store already holds succeeds and changes nothing |
| Repository.FirstWithId | BankingSolution/Repositories/InMemoryAccountRepository.cs:20 | the first-match search over the objects returns null exactly when no record has the id, and otherwise the object at the position where the record lookup finds it |
| Repository.InMemoryAccountRepository.Unaliased | BankingSolution/Repositories/InMemoryAccountRepository.cs:9-17 | in a well-formed store no object sits at two positions, since the ids differ |
| Repository.InMemoryAccountRepository.RecordWritten | BankingSolution/Repositories/InMemoryAccountRepository.cs:33-34 | writing the fields of one stored object changes exactly that record of the store's content |
| Repository.InMemoryAccountRepository.constructor | BankingSolution/Repositories/InMemoryAccountRepository.cs:9-10 | a new store is empty, its counter is 1, and it satisfies the invariant |
| Repository.InMemoryAccountRepository.Add | BankingSolution/Repositories/InMemoryAccountRepository.cs:13-17 | the account gets the current counter as its id; the counter grows by exactly 1; the account is appended with every earlier entry unchanged; the invariant is kept |
| Repository.InMemoryAccountRepository.GetById | BankingSolution/Repositories/InMemoryAccountRepository.cs:20 | null exactly when no stored account has the id; otherwise the stored object itself, whose id is the one asked for |
| Repository.InMemoryAccountRepository.GetAll | BankingSolution/Repositories/InMemoryAccountRepository.cs:23 | the stored objects themselves, in insertion order |
| Repository.InMemoryAccountRepository.Update | BankingSolution/Repositories/InMemoryAccountRepository.cs:26-35 | with an absent id it fails with "account not found" and the content is unchanged; otherwise the content becomes the replaced ledger; the list, the counter and the invariant are kept |
| AccountServices.ValidateAccount | BankingSolution/Services/AccountService.cs:73-79 | passes exactly when the owner is not null or white space and the balance is at least 0; the owner check is reported first; both failures are ArgumentExceptions |
| AccountServices.Created | BankingSolution/Services/AccountService.cs:20-31 | `Create` on values: succeeds exactly when validation passes, fails only with an empty-owner or negative-balance error, and on success appends one record after all earlier ones |
| AccountServices.MapToDto | BankingSolution/Services/AccountService.cs:62-70 | the DTO carries the account's id, owner and balance |
| AccountServices.CreateEffect | BankingSolution/Services/AccountService.cs:20-31 | creation succeeds exactly when validation passes and reports an empty owner before a negative balance; on success exactly one record is appended, with the next id and the request's owner and balance; the store stays well formed and the new account is found under its id |
| AccountServices.CreateKeepsNonNegative | BankingSolution/Services/AccountService.cs:20-31 | every account created has a non-negative balance, so creation keeps all balances non-negative |
| AccountServices.AccountService.constructor | BankingSolution/Services/AccountService.cs:14-17 | the service works on the store it is given |
| AccountServices.AccountService.Create | BankingSolution/Services/AccountService.cs:20-31 | a rejected request leaves the store untouched; an accepted one takes the content to the created ledger, adds one fresh object at the end and increments the counter; the invariant is kept |
| AccountServices.AccountService.GetAccountDtoById | BankingSolution/Services/AccountService.cs:34-38 | none exactly when the id is absent; otherwise the DTO of the stored record with that id |
| AccountServices.AccountService.GetAccounts | BankingSolution/Services/AccountService.cs:41-44 | one DTO per stored account, in store order, each with that account's fields |
| AccountServices.AccountService.GetAccountById | BankingSolution/Services/AccountService.cs:47-50 | null exactly when the id is absent; otherwise the stored object with that id |
| AccountServices.AccountService.UpdateAccount | BankingSolution/Services/AccountService.cs:53-59 | a null account is rejected with the store untouched; otherwise exactly the store's update |
| Transactions.ValidateAmount | BankingSolution/Services/TransactionService.cs:76-82 | passes exactly when the amount is positive; otherwise an invalid-amount ArgumentException |
| Transactions.ApplyDeposit | BankingSolution/Services/TransactionService.cs:18-28 | `Deposit` on values: fails only with invalid amount or account not found; a success keeps the number of records |
| Transactions.ApplyWithdraw | BankingSolution/Services/TransactionService.cs:31-45 | `Withdraw` on values: fails only with invalid amount, account not found or insufficient funds; a success keeps the number of records |
| Transactions.ApplyTransfer | BankingSolution/Services/TransactionService.cs:48-73 | `Transfer` on values: fails only with invalid amount, same account, account not found or insufficient funds; a success keeps the number of records |
| Transactions.DepositOutcome | BankingSolution/Services/TransactionService.cs:18-28 | a deposit succeeds exactly when the amount is positive and the account exists; the amount is checked before the lookup |
| Transactions.DepositEffect | BankingSolution/Services/TransactionService.cs:18-28 | a successful deposit sets the balance to old + amount and leaves every id and every other account unchanged |
| Transactions.DepositTotal | BankingSolution/Services/TransactionService.cs:18-28 | a deposit raises the sum of all balances by the amount |
| Transactions.WithdrawOutcome | BankingSolution/Services/TransactionService.cs:31-45 | a withdrawal succeeds exactly when the amount is positive, the account exists and its balance covers the amount; otherwise the first failing check is reported in that order, insufficient funds last |
| Transactions.WithdrawEffect | BankingSolution/Services/TransactionService.cs:31-45 | a successful withdrawal sets the balance to old − amount, which is at least 0, and leaves every id and every other account unchanged |
| Transactions.WithdrawTotal | BankingSolution/Services/TransactionService.cs:31-45 | a withdrawal lowers the sum of all balances by the amount |
| Transactions.TransferOutcome | BankingSolution/Services/TransactionService.cs:48-73 | a transfer succeeds exactly when the amount is positive, the ids differ, both accounts exist and the source covers the amount. Otherwise the first failing check is reported. A self-transfer is refused after the amount check, whatever the store holds |
| Transactions.TransferShape | BankingSolution/Services/TransactionService.cs:48-73 | a successful transfer found both accounts at different positions, the source covered the amount, and only those two balances were set |
| Transactions.TransferEffect | BankingSolution/Services/TransactionService.cs:65-72 | after a transfer the source holds old − amount (at least 0), the destination old + amount, and the two balances keep their sum |
| Transactions.TransferLeavesOthers | BankingSolution/Services/TransactionService.cs:65-72 | a transfer changes no id and no account other than the two |
| Transactions.TransferConservesTotal | BankingSolution/Services/TransactionService.cs:65-72 | a transfer keeps the sum of all balances |
| Transactions.DepositKeepsInvariants | BankingSolution/Services/TransactionService.cs:18-28 | a deposit keeps the store well formed and keeps all balances non-negative |
| Transactions.WithdrawKeepsInvariants | BankingSolution/Services/TransactionService.cs:31-45 | a withdrawal keeps the store well formed and keeps all balances non-negative |
| Transactions.TransferKeepsInvariants | BankingSolution/Services/TransactionService.cs:48-73 | a transfer keeps the store well formed and keeps all balances non-negative |
| Transactions.DepositTwice | BankingSolution/Services/TransactionService.cs:18-28 | deposits are not deduplicated: two deposits of 100 raise the balance by 200 |
| Transactions.TransactionService.constructor | BankingSolution/Services/TransactionService.cs:12-15 | the engine works on the account service it is given |
| Transactions.TransactionService.GetValidAccount | BankingSolution/Services/TransactionService.cs:85-89 | "account not found" exactly when the id is absent; otherwise the stored object with that id |
| Transactions.TransactionService.Deposit | BankingSolution/Services/TransactionService.cs:18-28 | on success returns true and takes the content to the deposited ledger; on any failure returns that error with the content unchanged; keeps the invariant and non-negative balances |
| Transactions.TransactionService.Withdraw | BankingSolution/Services/TransactionService.cs:31-45 | on success returns true and takes the content to the withdrawn ledger; on any failure, insufficient funds included, returns that error with the content unchanged; keeps the invariant and non-negative balances |
| Transactions.TransactionService.Transfer | BankingSolution/Services/TransactionService.cs:48-73 | on success returns true and takes the content to the transferred ledger, writing both objects in place; on any failure returns that error with neither account changed; keeps the invariant and non-negative balances |
| Scenarios.OpenFirstAccount | BankingSolution.Tests/BankingSolution.Tests/ServicesTests/AccountServiceTests.cs:22-40 | the first account created in a new store gets id 1 and the requested owner and balance |
| Scenarios.OpenTwoAccounts | BankingSolution/Repositories/InMemoryAccountRepository.cs:10-16 | the second account created gets id 2; the store then holds exactly the two accounts in creation order |
| Scenarios.TransferBetweenNewAccounts | BankingSolution.Tests/BankingSolution.Tests/ServicesTests/TransactionServiceTests.cs:113-131 | moving 300 from an account holding 1000 to one holding 500 succeeds and leaves 700 and 800 |
| Scenarios.RefusedAfterTransfer | BankingSolution.Tests/BankingSolution.Tests/ServicesTests/TransactionServiceTests.cs:175-189 | moving more than the source holds fails with insufficient funds, an InvalidOperationException; a deposit to an unknown id fails with "account not found", an ArgumentException; the DTOs read back 700 and 800 |

## Left out

- Concurrency: the store is a process-wide singleton with no locking. The model is sequential.
- `decimal` range, scale and overflow: amounts are exact unbounded `real`s, so the `OverflowException` a huge deposit could raise is not modelled.
- The HTTP controllers, dependency-injection wiring and logging are outside the core.
- The data annotations on the DTOs are enforced by the web framework, not by the core's code.
- Exception message strings and parameter names: only the error and its exception type are modelled.
  - Some test expectations no longer match the code's messages. Examples are "Withdraw must be greater than zero" and "One of both accounts not found".
- The interfaces are left out. The classes are modelled directly.
  - The older `Interfaces/IAccountService.cs` lacks the `GetAccountById` and `UpdateAccount` members the engine uses, so it is not modelled.
- `Models/Account.cs` and the `AccountDto` class are not part of this model. They are taken as `Id: int`, `Owner: string` and `Balance: decimal`, with the C# default id 0 for a new account.
- Repository.InMemoryAccountRepository.GetAll: the source returns the live `_accounts` list, so a caller that keeps it also sees later `Add`s. The model returns the list's value at the time of the call.
- AccountServices.AccountService.GetAccounts: the source returns a lazy `Select` projection over that live list. The model returns the projected sequence eagerly, as read at the time of the call.
- Exceptions are modelled as returned error values. A method that fails returns at the point where the source throws.
- Repository.InMemoryAccountRepository.Add: the id counter `_nextId` is a 32-bit C# `int`, but the model's counter is unbounded. After 2^31 − 1 additions the source's `_nextId++` wraps to a negative id, or throws `OverflowException` in a checked build. From then on ids are no longer positive, increasing or unique. The model proves the store invariant for every number of additions, so it holds for the source only below that bound.
- Repository.InMemoryAccountRepository.Add: requires that the object is not already in the store. The source would re-number such an object and list it twice; only `AccountService.Create`, which always adds a fresh object, calls `Add`.
- AccountServices.AccountService.UpdateAccount: it may write any owner and balance, including a negative balance, exactly as the source does. Non-negative balances are preserved by `Create` and the engine, not by the store.
