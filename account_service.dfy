/** The account service: validates creation requests, forwards lookups and updates
    to the store, and maps stored accounts to DTOs. */
module AccountServices {
  import opened Wrappers
  import opened Domain
  import opened Repository

  /** A creation request; `owner` is `None` when the request carries a null owner. */
  datatype CreateAccountDto = CreateAccountDto(owner: Option<string>, initialBalance: Money)

  /** The read-only view of an account handed to callers. */
  datatype AccountDto = AccountDto(id: int, owner: string, balance: Money)

  /** `char.IsWhiteSpace`: the Unicode space separators, line and paragraph
      separators, and the control characters U+0009-U+000D and U+0085. */
  predicate IsWhiteSpace(c: char)
  {
    ('\U{0009}' <= c <= '\U{000D}') || c == '\U{0020}' || c == '\U{0085}' || c == '\U{00A0}' ||
    c == '\U{1680}' || ('\U{2000}' <= c <= '\U{200A}') || c == '\U{2028}' || c == '\U{2029}' ||
    c == '\U{202F}' || c == '\U{205F}' || c == '\U{3000}'
  }

  /** `string.IsNullOrWhiteSpace`. */
  predicate IsNullOrWhiteSpace(s: Option<string>)
  {
    s.None? || forall k :: 0 <= k < |s.value| ==> IsWhiteSpace(s.value[k])
  }

  /** The creation checks, owner first, then the initial balance. */
  function ValidateAccount(dto: CreateAccountDto): (r: Outcome<Error>)
    ensures r.Pass? <==> !IsNullOrWhiteSpace(dto.owner) && dto.initialBalance >= 0.0
    ensures r.Fail? ==> (r.error == OwnerEmpty <==> IsNullOrWhiteSpace(dto.owner))
    ensures r.Fail? ==> r.error in {OwnerEmpty, NegativeInitialBalance} && KindOf(r.error) == ArgumentException
  {
    if IsNullOrWhiteSpace(dto.owner) then Fail(OwnerEmpty)
    else if dto.initialBalance < 0.0 then Fail(NegativeInitialBalance)
    else Pass
  }

  /** `Create` on values: validate, then add one account with the requested owner
      and initial balance. */
  function Created(rs: seq<AccountRecord>, nextId: int, dto: CreateAccountDto): (r: Result<seq<AccountRecord>, Error>)
    ensures r.Success? <==> ValidateAccount(dto).Pass?
    ensures r.Failure? ==> r.error in {OwnerEmpty, NegativeInitialBalance}
    ensures r.Success? ==> |r.value| == |rs| + 1 && r.value[..|rs|] == rs
  {
    match ValidateAccount(dto)
    case Fail(e) => Failure(e)
    case Pass => Success(Appended(rs, nextId, dto.owner.value, dto.initialBalance))
  }

  function MapToDto(rec: AccountRecord): (d: AccountDto)
    ensures d.id == rec.id && d.owner == rec.owner && d.balance == rec.balance
  {
    AccountDto(rec.id, rec.owner, rec.balance)
  }

  /** A successful creation adds exactly one account, at the end, carrying the
      next id and the request's owner and balance; the store stays well formed and
      the new account is found under its id. A rejected request reports the owner
      check before the balance check. */
  lemma {:induction false} CreateEffect(rs: seq<AccountRecord>, nextId: int, dto: CreateAccountDto)
    requires WellFormed(rs, nextId)
    ensures Created(rs, nextId, dto).Success? <==> !IsNullOrWhiteSpace(dto.owner) && dto.initialBalance >= 0.0
    ensures IsNullOrWhiteSpace(dto.owner) ==> Created(rs, nextId, dto) == Failure(OwnerEmpty)
    ensures Created(rs, nextId, dto).Success? ==>
      var rs' := Created(rs, nextId, dto).value;
      |rs'| == |rs| + 1 && rs'[..|rs|] == rs &&
      rs'[|rs|] == AccountRecord(nextId, dto.owner.value, dto.initialBalance) &&
      WellFormed(rs', nextId + 1) &&
      Find(rs', nextId) == Some(AccountRecord(nextId, dto.owner.value, dto.initialBalance))
  {
    if ValidateAccount(dto).Pass? {
      AddKeepsWellFormed(rs, nextId, dto.owner.value, dto.initialBalance);
    }
  }

  /** Every account created is created with a non-negative balance, so creation
      keeps all balances non-negative. */
  lemma {:induction false} CreateKeepsNonNegative(rs: seq<AccountRecord>, nextId: int, dto: CreateAccountDto)
    requires AllNonNegative(rs) && Created(rs, nextId, dto).Success?
    ensures AllNonNegative(Created(rs, nextId, dto).value)
  {
  }

  class AccountService {
    const repository: InMemoryAccountRepository

    constructor (repository: InMemoryAccountRepository)
      ensures this.repository == repository
    {
      this.repository := repository;
    }

    ghost predicate Valid()
      reads repository, repository.accounts
    {
      repository.Valid()
    }

    /** Validates the request and, only if it passes, adds a new account. */
    method Create(dto: CreateAccountDto) returns (r: Outcome<Error>)
      requires Valid()
      modifies repository
      ensures Valid()
      ensures match Created(old(repository.Records()), old(repository.nextId), dto)
        case Success(rs) =>
          r == Pass && repository.Records() == rs && repository.nextId == old(repository.nextId) + 1 &&
          |repository.accounts| == |old(repository.accounts)| + 1 &&
          repository.accounts[..|old(repository.accounts)|] == old(repository.accounts) &&
          fresh(repository.accounts[|old(repository.accounts)|])
        case Failure(e) =>
          r == Fail(e) && unchanged(repository) && repository.Records() == old(repository.Records())
    {
      var v := ValidateAccount(dto);
      if v.Fail? {
        return Fail(v.error);
      }
      var newAccount := new Account(dto.owner.value, dto.initialBalance);
      repository.Add(newAccount);
      r := Pass;
    }

    /** The DTO of the account with the id, or none. */
    function GetAccountDtoById(id: int): (d: Option<AccountDto>)
      reads repository, repository.accounts
      ensures d.None? <==> Find(repository.Records(), id).None?
      ensures d.Some? ==> d.value.id == id && d == Some(MapToDto(Find(repository.Records(), id).value))
    {
      var account := repository.GetById(id);
      if account == null then None else Some(MapToDto(account.Record()))
    }

    /** One DTO per stored account, in the store's order. */
    function GetAccounts(): (dtos: seq<AccountDto>)
      reads repository, repository.accounts
      ensures |dtos| == |repository.Records()|
      ensures forall k :: 0 <= k < |dtos| ==> dtos[k] == MapToDto(repository.Records()[k])
    {
      var all := repository.GetAll();
      seq(|all|, k requires 0 <= k < |all| reads all => MapToDto(all[k].Record()))
    }

    /** The stored account object with the id, or null. */
    function GetAccountById(id: int): (a: Account?)
      reads repository, repository.accounts
      ensures a == null <==> Find(repository.Records(), id).None?
      ensures a != null ==> a.id == id && a == repository.accounts[FindIndex(repository.Records(), id).value]
    {
      repository.GetById(id)
    }

    /** Rejects a null account; otherwise exactly the store's update. */
    method UpdateAccount(account: Account?) returns (r: Outcome<Error>)
      requires Valid()
      modifies repository.accounts
      ensures Valid() && repository.accounts == old(repository.accounts)
      ensures account == null ==> r == Fail(NullAccount) && repository.Records() == old(repository.Records())
      ensures account != null ==> match Replace(old(repository.Records()), old(account.Record()))
        case Success(rs) => r == Pass && repository.Records() == rs
        case Failure(e) => r == Fail(e) && repository.Records() == old(repository.Records())
    {
      if account == null {
        return Fail(NullAccount);
      }
      r := repository.Update(account);
    }
  }
}
