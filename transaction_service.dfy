/** The transaction engine: deposit, withdraw and transfer. Every check runs before
    any balance is written, so a rejected operation leaves the store as it was. */
module Transactions {
  import opened Wrappers
  import opened Domain
  import opened Repository
  import opened AccountServices

  /** The amount check shared by all three operations. */
  function ValidateAmount(amount: Money): (r: Outcome<Error>)
    ensures r.Pass? <==> amount > 0.0
    ensures r.Fail? ==> r.error == InvalidAmount && KindOf(r.error) == ArgumentException
  {
    if amount <= 0.0 then Fail(InvalidAmount) else Pass
  }

  // ---------------------------------------------------------------------------
  // The operations on values: the new ledger, or the error, in the order the
  // checks are made.
  // ---------------------------------------------------------------------------

  function ApplyDeposit(rs: seq<AccountRecord>, accountId: int, amount: Money): (r: Result<seq<AccountRecord>, Error>)
    ensures r.Failure? ==> r.error in {InvalidAmount, AccountNotFound}
    ensures r.Success? ==> |r.value| == |rs|
  {
    if ValidateAmount(amount).Fail? then Failure(InvalidAmount)
    else match FindIndex(rs, accountId)
      case None => Failure(AccountNotFound)
      case Some(k) => Success(SetBalance(rs, k, rs[k].balance + amount))
  }

  function ApplyWithdraw(rs: seq<AccountRecord>, accountId: int, amount: Money): (r: Result<seq<AccountRecord>, Error>)
    ensures r.Failure? ==> r.error in {InvalidAmount, AccountNotFound, InsufficientFunds}
    ensures r.Success? ==> |r.value| == |rs|
  {
    if ValidateAmount(amount).Fail? then Failure(InvalidAmount)
    else match FindIndex(rs, accountId)
      case None => Failure(AccountNotFound)
      case Some(k) =>
        if rs[k].balance < amount then Failure(InsufficientFunds)
        else Success(SetBalance(rs, k, rs[k].balance - amount))
  }

  function ApplyTransfer(rs: seq<AccountRecord>, fromId: int, toId: int, amount: Money): (r: Result<seq<AccountRecord>, Error>)
    ensures r.Failure? ==> r.error in {InvalidAmount, SameAccount, AccountNotFound, InsufficientFunds}
    ensures r.Success? ==> |r.value| == |rs|
  {
    if ValidateAmount(amount).Fail? then Failure(InvalidAmount)
    else if fromId == toId then Failure(SameAccount)
    else match FindIndex(rs, fromId)
      case None => Failure(AccountNotFound)
      case Some(i) =>
        match FindIndex(rs, toId)
        case None => Failure(AccountNotFound)
        case Some(j) =>
          if rs[i].balance < amount then Failure(InsufficientFunds)
          else Success(SetBalance(SetBalance(rs, i, rs[i].balance - amount), j, rs[j].balance + amount))
  }

  /** The sum of all balances. */
  function Total(rs: seq<AccountRecord>): Money
  {
    if rs == [] then 0.0 else rs[0].balance + Total(rs[1..])
  }

  // ---------------------------------------------------------------------------
  // Properties of the operations.
  // ---------------------------------------------------------------------------

  /** Setting one balance moves the total by exactly the difference. */
  lemma {:induction false} TotalSetBalance(rs: seq<AccountRecord>, k: nat, b: Money)
    requires k < |rs|
    ensures Total(SetBalance(rs, k, b)) == Total(rs) - rs[k].balance + b
  {
    if k == 0 {
      assert SetBalance(rs, k, b)[1..] == rs[1..];
    } else {
      assert SetBalance(rs, k, b)[1..] == SetBalance(rs[1..], k - 1, b);
      TotalSetBalance(rs[1..], k - 1, b);
    }
  }

  /** Setting one balance keeps every id in place, so lookups and well-formedness
      are unaffected. */
  lemma {:induction false} SetBalanceKeepsIds(rs: seq<AccountRecord>, k: nat, b: Money, id: int)
    requires k < |rs|
    ensures SameIds(rs, SetBalance(rs, k, b))
    ensures FindIndex(SetBalance(rs, k, b), id) == FindIndex(rs, id)
  {
    FindIndexSameIds(rs, SetBalance(rs, k, b), id);
  }

  /** Deposit succeeds exactly when the amount is positive and the account exists,
      and the amount is checked first. */
  lemma {:induction false} DepositOutcome(rs: seq<AccountRecord>, accountId: int, amount: Money)
    ensures ApplyDeposit(rs, accountId, amount).Success? <==> amount > 0.0 && Find(rs, accountId).Some?
    ensures amount <= 0.0 ==> ApplyDeposit(rs, accountId, amount) == Failure(InvalidAmount)
    ensures amount > 0.0 && Find(rs, accountId).None? ==> ApplyDeposit(rs, accountId, amount) == Failure(AccountNotFound)
  {
  }

  /** A successful deposit grows the account's balance by the amount and changes
      nothing else. */
  lemma {:induction false} DepositEffect(rs: seq<AccountRecord>, accountId: int, amount: Money, rs': seq<AccountRecord>)
    requires ApplyDeposit(rs, accountId, amount) == Success(rs')
    ensures Find(rs, accountId).Some?
    ensures var a := Find(rs, accountId).value;
      Find(rs', accountId) == Some(a.(balance := a.balance + amount))
    ensures SameIds(rs, rs')
    ensures forall k :: 0 <= k < |rs| && rs[k].id != accountId ==> rs'[k] == rs[k]
  {
    var k := FindIndex(rs, accountId).value;
    SetBalanceKeepsIds(rs, k, rs[k].balance + amount, accountId);
    FindAt(rs, accountId, k);
    FindAt(rs', accountId, k);
  }

  /** A successful deposit brings new funds in: the total grows by the amount. */
  lemma {:induction false} DepositTotal(rs: seq<AccountRecord>, accountId: int, amount: Money, rs': seq<AccountRecord>)
    requires ApplyDeposit(rs, accountId, amount) == Success(rs')
    ensures Total(rs') == Total(rs) + amount
  {
    var k := FindIndex(rs, accountId).value;
    TotalSetBalance(rs, k, rs[k].balance + amount);
  }

  /** Withdraw succeeds exactly when the amount is positive, the account exists and
      its balance covers the amount; otherwise the first failing check in that order
      is reported. */
  lemma {:induction false} WithdrawOutcome(rs: seq<AccountRecord>, accountId: int, amount: Money)
    ensures ApplyWithdraw(rs, accountId, amount).Success? <==>
      amount > 0.0 && Find(rs, accountId).Some? && Find(rs, accountId).value.balance >= amount
    ensures amount <= 0.0 ==> ApplyWithdraw(rs, accountId, amount) == Failure(InvalidAmount)
    ensures amount > 0.0 && Find(rs, accountId).None? ==> ApplyWithdraw(rs, accountId, amount) == Failure(AccountNotFound)
    ensures (amount > 0.0 && Find(rs, accountId).Some? && Find(rs, accountId).value.balance < amount) ==>
      ApplyWithdraw(rs, accountId, amount) == Failure(InsufficientFunds)
  {
  }

  /** A successful withdrawal lowers the balance by the amount, leaving it at least
      0, and changes nothing else. */
  lemma {:induction false} WithdrawEffect(rs: seq<AccountRecord>, accountId: int, amount: Money, rs': seq<AccountRecord>)
    requires ApplyWithdraw(rs, accountId, amount) == Success(rs')
    ensures Find(rs, accountId).Some?
    ensures var a := Find(rs, accountId).value;
      Find(rs', accountId) == Some(a.(balance := a.balance - amount)) && a.balance - amount >= 0.0
    ensures SameIds(rs, rs')
    ensures forall k :: 0 <= k < |rs| && rs[k].id != accountId ==> rs'[k] == rs[k]
  {
    var k := FindIndex(rs, accountId).value;
    SetBalanceKeepsIds(rs, k, rs[k].balance - amount, accountId);
    FindAt(rs, accountId, k);
    FindAt(rs', accountId, k);
  }

  /** A withdrawal takes funds out of the ledger: the total drops by the amount. */
  lemma {:induction false} WithdrawTotal(rs: seq<AccountRecord>, accountId: int, amount: Money, rs': seq<AccountRecord>)
    requires ApplyWithdraw(rs, accountId, amount) == Success(rs')
    ensures Total(rs') == Total(rs) - amount
  {
    var k := FindIndex(rs, accountId).value;
    TotalSetBalance(rs, k, rs[k].balance - amount);
  }

  /** Transfer succeeds exactly when the amount is positive, the two ids differ, both
      accounts exist and the source covers the amount; otherwise the first failing
      check in that order is reported, so a self-transfer is refused whatever the
      store holds. */
  lemma {:induction false} TransferOutcome(rs: seq<AccountRecord>, fromId: int, toId: int, amount: Money)
    ensures ApplyTransfer(rs, fromId, toId, amount).Success? <==>
      amount > 0.0 && fromId != toId && Find(rs, fromId).Some? && Find(rs, toId).Some? &&
      Find(rs, fromId).value.balance >= amount
    ensures amount <= 0.0 ==> ApplyTransfer(rs, fromId, toId, amount) == Failure(InvalidAmount)
    ensures amount > 0.0 && fromId == toId ==> ApplyTransfer(rs, fromId, toId, amount) == Failure(SameAccount)
    ensures amount > 0.0 && fromId != toId && (Find(rs, fromId).None? || Find(rs, toId).None?) ==>
      ApplyTransfer(rs, fromId, toId, amount) == Failure(AccountNotFound)
    ensures (amount > 0.0 && fromId != toId && Find(rs, fromId).Some? && Find(rs, toId).Some? &&
             Find(rs, fromId).value.balance < amount) ==>
      ApplyTransfer(rs, fromId, toId, amount) == Failure(InsufficientFunds)
  {
  }

  /** What a successful transfer is made of: both accounts found, at different
      positions, the source covering the amount, and the two balances set. */
  lemma {:induction false} TransferShape(rs: seq<AccountRecord>, fromId: int, toId: int, amount: Money, rs': seq<AccountRecord>)
    returns (i: nat, j: nat)
    requires ApplyTransfer(rs, fromId, toId, amount) == Success(rs')
    ensures amount > 0.0 && fromId != toId
    ensures FindIndex(rs, fromId) == Some(i) && FindIndex(rs, toId) == Some(j) && i != j
    ensures rs[i].balance >= amount
    ensures rs' == SetBalance(SetBalance(rs, i, rs[i].balance - amount), j, rs[j].balance + amount)
  {
    i, j := FindIndex(rs, fromId).value, FindIndex(rs, toId).value;
  }

  /** Setting two balances moves no id: a lookup finds the same position before and after. */
  lemma {:induction false} FindAfterTwoSets(rs: seq<AccountRecord>, id: int, k: nat, i: nat, bi: Money, j: nat, bj: Money)
    requires FindIndex(rs, id) == Some(k) && i < |rs| && j < |rs|
    ensures var rs' := SetBalance(SetBalance(rs, i, bi), j, bj);
      Find(rs, id) == Some(rs[k]) && Find(rs', id) == Some(rs'[k])
  {
    var mid := SetBalance(rs, i, bi);
    SetBalanceKeepsIds(rs, i, bi, id);
    SetBalanceKeepsIds(mid, j, bj, id);
    FindAt(rs, id, k);
    FindAt(SetBalance(mid, j, bj), id, k);
  }

  /** Moving `amount` from position `i` to position `j`, seen through lookups. */
  lemma {:induction false} MoveFunds(rs: seq<AccountRecord>, fromId: int, toId: int, i: nat, j: nat, amount: Money, rs': seq<AccountRecord>)
    requires FindIndex(rs, fromId) == Some(i) && FindIndex(rs, toId) == Some(j) && i != j
    requires rs' == SetBalance(SetBalance(rs, i, rs[i].balance - amount), j, rs[j].balance + amount)
    ensures Find(rs, fromId) == Some(rs[i]) && Find(rs, toId) == Some(rs[j])
    ensures Find(rs', fromId) == Some(rs[i].(balance := rs[i].balance - amount))
    ensures Find(rs', toId) == Some(rs[j].(balance := rs[j].balance + amount))
  {
    FindAfterTwoSets(rs, fromId, i, i, rs[i].balance - amount, j, rs[j].balance + amount);
    FindAfterTwoSets(rs, toId, j, i, rs[i].balance - amount, j, rs[j].balance + amount);
  }

  /** Moving `amount` from position `i` to position `j` leaves every id and every
      other record as it was. */
  lemma {:induction false} MoveFundsOthers(rs: seq<AccountRecord>, i: nat, j: nat, amount: Money, rs': seq<AccountRecord>)
    requires i < |rs| && j < |rs|
    requires rs' == SetBalance(SetBalance(rs, i, rs[i].balance - amount), j, rs[j].balance + amount)
    ensures SameIds(rs, rs')
    ensures forall k :: 0 <= k < |rs| && k != i && k != j ==> rs'[k] == rs[k]
  {
  }

  /** A successful transfer takes the amount from the source (leaving it at least
      0) and gives it to the destination, so the two balances keep their sum. */
  lemma {:induction false} TransferEffect(rs: seq<AccountRecord>, fromId: int, toId: int, amount: Money, rs': seq<AccountRecord>)
    requires ApplyTransfer(rs, fromId, toId, amount) == Success(rs')
    ensures Find(rs, fromId).Some? && Find(rs, toId).Some?
    ensures var f, t := Find(rs, fromId).value, Find(rs, toId).value;
      Find(rs', fromId) == Some(f.(balance := f.balance - amount)) && f.balance - amount >= 0.0 &&
      Find(rs', toId) == Some(t.(balance := t.balance + amount)) &&
      Find(rs', fromId).value.balance + Find(rs', toId).value.balance == f.balance + t.balance
  {
    var i, j := TransferShape(rs, fromId, toId, amount, rs');
    MoveFunds(rs, fromId, toId, i, j, amount, rs');
  }

  /** A successful transfer touches no other account and no id. */
  lemma {:induction false} TransferLeavesOthers(rs: seq<AccountRecord>, fromId: int, toId: int, amount: Money, rs': seq<AccountRecord>)
    requires ApplyTransfer(rs, fromId, toId, amount) == Success(rs')
    ensures SameIds(rs, rs')
    ensures forall k :: 0 <= k < |rs| && rs[k].id != fromId && rs[k].id != toId ==> rs'[k] == rs[k]
  {
    var i, j := TransferShape(rs, fromId, toId, amount, rs');
    MoveFundsOthers(rs, i, j, amount, rs');
  }

  /** A transfer only moves funds: the total over all accounts is conserved. */
  lemma {:induction false} TransferConservesTotal(rs: seq<AccountRecord>, fromId: int, toId: int, amount: Money, rs': seq<AccountRecord>)
    requires ApplyTransfer(rs, fromId, toId, amount) == Success(rs')
    ensures Total(rs') == Total(rs)
  {
    var i, j := TransferShape(rs, fromId, toId, amount, rs');
    MoveFundsTotal(rs, i, j, amount, rs');
  }

  lemma {:induction false} MoveFundsTotal(rs: seq<AccountRecord>, i: nat, j: nat, amount: Money, rs': seq<AccountRecord>)
    requires i < |rs| && j < |rs| && i != j
    requires rs' == SetBalance(SetBalance(rs, i, rs[i].balance - amount), j, rs[j].balance + amount)
    ensures Total(rs') == Total(rs)
  {
    var mid := SetBalance(rs, i, rs[i].balance - amount);
    TotalSetBalance(rs, i, rs[i].balance - amount);
    TotalSetBalance(mid, j, rs[j].balance + amount);
  }

  /** The success case of each operation at the positions its lookups found. */
  lemma {:induction false} DepositAt(rs: seq<AccountRecord>, accountId: int, amount: Money, k: nat)
    requires amount > 0.0 && FindIndex(rs, accountId) == Some(k)
    ensures k < |rs| && ApplyDeposit(rs, accountId, amount) == Success(SetBalance(rs, k, rs[k].balance + amount))
  {
  }

  lemma {:induction false} WithdrawAt(rs: seq<AccountRecord>, accountId: int, amount: Money, k: nat)
    requires amount > 0.0 && FindIndex(rs, accountId) == Some(k)
    requires k < |rs| && rs[k].balance >= amount
    ensures ApplyWithdraw(rs, accountId, amount) == Success(SetBalance(rs, k, rs[k].balance - amount))
  {
  }

  lemma {:induction false} TransferAt(rs: seq<AccountRecord>, fromId: int, toId: int, amount: Money, i: nat, j: nat)
    requires amount > 0.0 && fromId != toId
    requires FindIndex(rs, fromId) == Some(i) && FindIndex(rs, toId) == Some(j)
    requires i < |rs| && j < |rs| && rs[i].balance >= amount
    ensures ApplyTransfer(rs, fromId, toId, amount) ==
      Success(SetBalance(SetBalance(rs, i, rs[i].balance - amount), j, rs[j].balance + amount))
  {
  }

  /** No operation of the engine changes an id, so each keeps the store well formed,
      and each keeps every balance non-negative. */
  lemma {:induction false} DepositKeepsInvariants(rs: seq<AccountRecord>, nextId: int, accountId: int, amount: Money, rs': seq<AccountRecord>)
    requires WellFormed(rs, nextId)
    requires ApplyDeposit(rs, accountId, amount) == Success(rs')
    ensures WellFormed(rs', nextId) && (AllNonNegative(rs) ==> AllNonNegative(rs'))
  {
    DepositEffect(rs, accountId, amount, rs');
    WellFormedSameIds(rs, rs', nextId);
  }

  lemma {:induction false} WithdrawKeepsInvariants(rs: seq<AccountRecord>, nextId: int, accountId: int, amount: Money, rs': seq<AccountRecord>)
    requires WellFormed(rs, nextId)
    requires ApplyWithdraw(rs, accountId, amount) == Success(rs')
    ensures WellFormed(rs', nextId) && (AllNonNegative(rs) ==> AllNonNegative(rs'))
  {
    WithdrawEffect(rs, accountId, amount, rs');
    WellFormedSameIds(rs, rs', nextId);
  }

  lemma {:induction false} TransferKeepsInvariants(rs: seq<AccountRecord>, nextId: int, fromId: int, toId: int, amount: Money, rs': seq<AccountRecord>)
    requires WellFormed(rs, nextId)
    requires ApplyTransfer(rs, fromId, toId, amount) == Success(rs')
    ensures WellFormed(rs', nextId) && (AllNonNegative(rs) ==> AllNonNegative(rs'))
  {
    TransferEffect(rs, fromId, toId, amount, rs');
    TransferLeavesOthers(rs, fromId, toId, amount, rs');
    WellFormedSameIds(rs, rs', nextId);
  }

  /** Repeated deposits are not deduplicated: two deposits of 100 add 200. */
  lemma {:induction false} DepositTwice(rs: seq<AccountRecord>, accountId: int)
    requires Find(rs, accountId).Some?
    ensures ApplyDeposit(rs, accountId, 100.0).Success?
    ensures var once := ApplyDeposit(rs, accountId, 100.0).value;
      ApplyDeposit(once, accountId, 100.0).Success? &&
      var a := Find(rs, accountId).value;
      Find(ApplyDeposit(once, accountId, 100.0).value, accountId) == Some(a.(balance := a.balance + 200.0))
  {
    DepositOutcome(rs, accountId, 100.0);
    var once := ApplyDeposit(rs, accountId, 100.0).value;
    DepositEffect(rs, accountId, 100.0, once);
    DepositOutcome(once, accountId, 100.0);
    DepositEffect(once, accountId, 100.0, ApplyDeposit(once, accountId, 100.0).value);
  }

  // ---------------------------------------------------------------------------
  // The engine as an object, working on the objects the store holds.
  // ---------------------------------------------------------------------------

  class TransactionService {
    const accountService: AccountService

    constructor (accountService: AccountService)
      ensures this.accountService == accountService
    {
      this.accountService := accountService;
    }

    ghost predicate Valid()
      reads accountService.repository, accountService.repository.accounts
    {
      accountService.Valid()
    }

    /** The store's content as values. */
    function Ledger(): seq<AccountRecord>
      reads accountService.repository, accountService.repository.accounts
    {
      accountService.repository.Records()
    }

    /** The stored account object with the id, or "account not found". */
    function GetValidAccount(accountId: int): (r: Result<Account, Error>)
      reads accountService.repository, accountService.repository.accounts
      ensures r.Failure? <==> Find(Ledger(), accountId).None?
      ensures r.Failure? ==> r.error == AccountNotFound
      ensures r.Success? ==>
        r.value.id == accountId &&
        r.value == accountService.repository.accounts[FindIndex(Ledger(), accountId).value]
    {
      var account := accountService.GetAccountById(accountId);
      if account == null then Failure(AccountNotFound) else Success(account)
    }

    method Deposit(accountId: int, deposit: Money) returns (r: Result<bool, Error>)
      requires Valid()
      modifies accountService.repository.accounts
      ensures Valid()
      ensures match ApplyDeposit(old(Ledger()), accountId, deposit)
        case Success(rs) => r == Success(true) && Ledger() == rs
        case Failure(e) => r == Failure(e) && Ledger() == old(Ledger())
      ensures old(AllNonNegative(Ledger())) ==> AllNonNegative(Ledger())
    {
      ghost var before := Ledger();
      ghost var nextId := accountService.repository.nextId;
      var v := ValidateAmount(deposit);
      if v.Fail? {
        return Failure(v.error);
      }
      var found := GetValidAccount(accountId);
      if found.Failure? {
        return Failure(found.error);
      }
      var account := found.value;
      ghost var k := FindIndex(before, accountId).value;
      DepositAt(before, accountId, deposit, k);
      ghost var after := SetBalance(before, k, before[k].balance + deposit);
      assert account.Record() == before[k];
      accountService.repository.Unaliased(k);
      account.balance := account.balance + deposit;
      accountService.repository.RecordWritten(k);
      assert account.Record() == after[k];
      assert Ledger() == after;
      DepositKeepsInvariants(before, nextId, accountId, deposit, after);
      ReplaceWithStored(after, nextId, k);
      var written := accountService.UpdateAccount(account);
      assert written == Pass && Ledger() == after;
      return Success(true);
    }

    method Withdraw(accountId: int, withdraw: Money) returns (r: Result<bool, Error>)
      requires Valid()
      modifies accountService.repository.accounts
      ensures Valid()
      ensures match ApplyWithdraw(old(Ledger()), accountId, withdraw)
        case Success(rs) => r == Success(true) && Ledger() == rs
        case Failure(e) => r == Failure(e) && Ledger() == old(Ledger())
      ensures old(AllNonNegative(Ledger())) ==> AllNonNegative(Ledger())
    {
      ghost var before := Ledger();
      ghost var nextId := accountService.repository.nextId;
      var v := ValidateAmount(withdraw);
      if v.Fail? {
        return Failure(v.error);
      }
      var found := GetValidAccount(accountId);
      if found.Failure? {
        return Failure(found.error);
      }
      var account := found.value;
      if account.balance < withdraw {
        return Failure(InsufficientFunds);
      }
      ghost var k := FindIndex(before, accountId).value;
      WithdrawAt(before, accountId, withdraw, k);
      ghost var after := SetBalance(before, k, before[k].balance - withdraw);
      assert account.Record() == before[k];
      accountService.repository.Unaliased(k);
      account.balance := account.balance - withdraw;
      accountService.repository.RecordWritten(k);
      assert account.Record() == after[k];
      assert Ledger() == after;
      WithdrawKeepsInvariants(before, nextId, accountId, withdraw, after);
      ReplaceWithStored(after, nextId, k);
      var written := accountService.UpdateAccount(account);
      assert written == Pass && Ledger() == after;
      return Success(true);
    }

    method Transfer(fromAccountId: int, toAccountId: int, amount: Money) returns (r: Result<bool, Error>)
      requires Valid()
      modifies accountService.repository.accounts
      ensures Valid()
      ensures match ApplyTransfer(old(Ledger()), fromAccountId, toAccountId, amount)
        case Success(rs) => r == Success(true) && Ledger() == rs
        case Failure(e) => r == Failure(e) && Ledger() == old(Ledger())
      ensures old(AllNonNegative(Ledger())) ==> AllNonNegative(Ledger())
    {
      ghost var before := Ledger();
      ghost var nextId := accountService.repository.nextId;
      var v := ValidateAmount(amount);
      if v.Fail? {
        return Failure(v.error);
      }
      if fromAccountId == toAccountId {
        return Failure(SameAccount);
      }
      var fromFound := GetValidAccount(fromAccountId);
      if fromFound.Failure? {
        return Failure(fromFound.error);
      }
      var toFound := GetValidAccount(toAccountId);
      if toFound.Failure? {
        return Failure(toFound.error);
      }
      var fromAccount, toAccount := fromFound.value, toFound.value;
      assert fromAccount == accountService.repository.accounts[FindIndex(before, fromAccountId).value];
      assert toAccount == accountService.repository.accounts[FindIndex(before, toAccountId).value];
      if fromAccount.balance < amount {
        return Failure(InsufficientFunds);
      }
      ghost var i, j := FindIndex(before, fromAccountId).value, FindIndex(before, toAccountId).value;
      TransferAt(before, fromAccountId, toAccountId, amount, i, j);
      ghost var mid := SetBalance(before, i, before[i].balance - amount);
      ghost var after := SetBalance(mid, j, before[j].balance + amount);
      assert fromAccount.Record() == before[i] && toAccount.Record() == before[j];
      accountService.repository.Unaliased(i);
      accountService.repository.Unaliased(j);
      fromAccount.balance := fromAccount.balance - amount;
      assert Ledger() == mid by {
        accountService.repository.RecordWritten(i);
        assert fromAccount.Record() == mid[i];
      }
      assert toAccount.Record() == mid[j];
      label FromWritten:
      toAccount.balance := toAccount.balance + amount;
      assert Ledger() == after by {
        accountService.repository.RecordWritten@FromWritten(j);
        assert toAccount.Record() == after[j];
      }
      TransferKeepsInvariants(before, nextId, fromAccountId, toAccountId, amount, after);
      ReplaceWithStored(after, nextId, i);
      ReplaceWithStored(after, nextId, j);
      assert fromAccount.Record() == after[i];
      var fromWritten := accountService.UpdateAccount(fromAccount);
      assert fromWritten == Pass && Ledger() == after;
      assert toAccount.Record() == after[j];
      var toWritten := accountService.UpdateAccount(toAccount);
      assert toWritten == Pass && Ledger() == after;
      assert old(Ledger()) == before && ApplyTransfer(before, fromAccountId, toAccountId, amount) == Success(after);
      assert Valid() && (old(AllNonNegative(Ledger())) ==> AllNonNegative(Ledger()));
      return Success(true);
    }
  }
}
