/** The in-memory account store: a list of accounts in insertion order and an
    auto-increment id counter. */
module Repository {
  import opened Wrappers
  import opened Domain

  // ---------------------------------------------------------------------------
  // The store as a value: the records of its accounts, in list order.
  // ---------------------------------------------------------------------------

  /** The position of the first record whose id is `id` (`FirstOrDefault`). */
  function FindIndex(rs: seq<AccountRecord>, id: int): (r: Option<nat>)
    ensures r.Some? ==> r.value < |rs| && rs[r.value].id == id
  {
    if rs == [] then None
    else if rs[0].id == id then Some(0)
    else match FindIndex(rs[1..], id)
      case None => None
      case Some(k) => Some(k + 1)
  }

  /** The record the store returns for `id`, if any. */
  function Find(rs: seq<AccountRecord>, id: int): Option<AccountRecord>
  {
    match FindIndex(rs, id)
    case None => None
    case Some(k) => Some(rs[k])
  }

  /** What the store keeps true: ids are at least 1, strictly increasing in list
      order (hence unique), and all below the next id to hand out. */
  ghost predicate WellFormed(rs: seq<AccountRecord>, nextId: int)
  {
    1 <= nextId &&
    (forall k :: 0 <= k < |rs| ==> 1 <= rs[k].id < nextId) &&
    (forall j, k :: 0 <= j < k < |rs| ==> rs[j].id < rs[k].id)
  }

  /** No balance is below zero. The store does not enforce this; account creation
      and the transaction engine keep it. */
  ghost predicate AllNonNegative(rs: seq<AccountRecord>)
  {
    forall k :: 0 <= k < |rs| ==> rs[k].balance >= 0.0
  }

  /** Two ledgers that hold the same ids in the same positions. */
  ghost predicate SameIds(rs: seq<AccountRecord>, rs': seq<AccountRecord>)
  {
    |rs| == |rs'| && forall k :: 0 <= k < |rs| ==> rs[k].id == rs'[k].id
  }

  /** `Add` on values: the account takes the id `nextId` and goes at the end. */
  function Appended(rs: seq<AccountRecord>, nextId: int, owner: string, balance: Money): (r: seq<AccountRecord>)
    ensures |r| == |rs| + 1 && r[..|rs|] == rs && r[|rs|] == AccountRecord(nextId, owner, balance)
  {
    rs + [AccountRecord(nextId, owner, balance)]
  }

  /** `Update` on values: the first record with `rec.id` takes the owner and balance
      of `rec`; with no such record the update fails. */
  function Replace(rs: seq<AccountRecord>, rec: AccountRecord): (r: Result<seq<AccountRecord>, Error>)
    ensures r.Failure? ==> r.error == AccountNotFound
    ensures r.Success? ==> |r.value| == |rs|
  {
    match FindIndex(rs, rec.id)
    case None => Failure(AccountNotFound)
    case Some(k) => Success(rs[k := rs[k].(owner := rec.owner, balance := rec.balance)])
  }

  /** The records with the balance at position `k` set to `b`. */
  function SetBalance(rs: seq<AccountRecord>, k: nat, b: Money): seq<AccountRecord>
    requires k < |rs|
  {
    rs[k := rs[k].(balance := b)]
  }

  // ---------------------------------------------------------------------------
  // Properties of the store's operations on values.
  // ---------------------------------------------------------------------------

  /** `FindIndex` fails exactly when no record has the id, and otherwise reports the
      first position that has it. */
  lemma {:induction false} FindIndexFirst(rs: seq<AccountRecord>, id: int)
    ensures FindIndex(rs, id).None? <==> forall k :: 0 <= k < |rs| ==> rs[k].id != id
    ensures FindIndex(rs, id).Some? ==> forall k :: 0 <= k < FindIndex(rs, id).value ==> rs[k].id != id
  {
    if rs != [] && rs[0].id != id {
      FindIndexFirst(rs[1..], id);
      if FindIndex(rs[1..], id).None? {
        forall k | 0 <= k < |rs| ensures rs[k].id != id {
          if k > 0 {
            assert rs[k] == rs[1..][k - 1];
          }
        }
      } else {
        forall k | 0 <= k < FindIndex(rs, id).value ensures rs[k].id != id {
          if k > 0 {
            assert rs[k] == rs[1..][k - 1];
          }
        }
      }
    }
  }

  /** `Find` returns the record at the position `FindIndex` reports. */
  lemma {:induction false} FindAt(rs: seq<AccountRecord>, id: int, k: nat)
    requires FindIndex(rs, id) == Some(k)
    ensures k < |rs| && Find(rs, id) == Some(rs[k])
  {
  }

  /** In a well-formed store a stored id is found exactly where it is stored. */
  lemma {:induction false} FindStored(rs: seq<AccountRecord>, nextId: int, k: nat)
    requires WellFormed(rs, nextId) && k < |rs|
    ensures FindIndex(rs, rs[k].id) == Some(k)
    ensures Find(rs, rs[k].id) == Some(rs[k])
  {
    FindIndexFirst(rs, rs[k].id);
  }

  /** Lookups only look at ids: a ledger with the same ids answers with the same
      position. */
  lemma {:induction false} FindIndexSameIds(rs: seq<AccountRecord>, rs': seq<AccountRecord>, id: int)
    requires SameIds(rs, rs')
    ensures FindIndex(rs', id) == FindIndex(rs, id)
  {
    if rs != [] {
      assert SameIds(rs[1..], rs'[1..]);
      FindIndexSameIds(rs[1..], rs'[1..], id);
    }
  }

  /** Well-formedness only depends on the ids. */
  lemma {:induction false} WellFormedSameIds(rs: seq<AccountRecord>, rs': seq<AccountRecord>, nextId: int)
    requires WellFormed(rs, nextId) && SameIds(rs, rs')
    ensures WellFormed(rs', nextId)
  {
  }

  /** `Add` keeps the store well formed under the incremented counter, keeps every
      earlier record, and the new account is found under the id it was given. */
  lemma {:induction false} AddKeepsWellFormed(rs: seq<AccountRecord>, nextId: int, owner: string, balance: Money)
    requires WellFormed(rs, nextId)
    ensures var rs' := Appended(rs, nextId, owner, balance);
      WellFormed(rs', nextId + 1) &&
      |rs'| == |rs| + 1 && rs'[..|rs|] == rs &&
      Find(rs', nextId) == Some(AccountRecord(nextId, owner, balance))
  {
    var rs' := Appended(rs, nextId, owner, balance);
    FindStored(rs', nextId + 1, |rs|);
  }

  /** `Update` of a stored id changes only the owner and balance of that one record;
      the ids, the order and every other record stay as they were. `Update` of an
      absent id fails. */
  lemma {:induction false} ReplaceEffect(rs: seq<AccountRecord>, rec: AccountRecord)
    ensures Replace(rs, rec).Failure? <==> Find(rs, rec.id).None?
    ensures Replace(rs, rec).Failure? ==> Replace(rs, rec).error == AccountNotFound
    ensures Replace(rs, rec).Success? ==>
      var rs' := Replace(rs, rec).value;
      SameIds(rs, rs') &&
      Find(rs', rec.id) == Some(rec) &&
      forall k :: 0 <= k < |rs| && rs[k].id != rec.id ==> rs'[k] == rs[k]
  {
    if Replace(rs, rec).Success? {
      var rs' := Replace(rs, rec).value;
      FindIndexSameIds(rs, rs', rec.id);
    }
  }

  /** Writing back a record the store already holds changes nothing. The
      transaction engine does this after changing the stored object in place. */
  lemma {:induction false} ReplaceWithStored(rs: seq<AccountRecord>, nextId: int, k: nat)
    requires WellFormed(rs, nextId) && k < |rs|
    ensures Replace(rs, rs[k]) == Success(rs)
  {
    FindStored(rs, nextId, k);
    assert rs[k].(owner := rs[k].owner, balance := rs[k].balance) == rs[k];
    assert rs[k := rs[k]] == rs;
  }

  // ---------------------------------------------------------------------------
  // The store as an object.
  // ---------------------------------------------------------------------------

  /** The records of a list of account objects, element by element. */
  function Snapshot(s: seq<Account>): (r: seq<AccountRecord>)
    reads s
    ensures |r| == |s| && forall k :: 0 <= k < |s| ==> r[k] == s[k].Record()
  {
    if s == [] then [] else [s[0].Record()] + Snapshot(s[1..])
  }

  /** The first object of `s` whose id is `id`, or null (`FirstOrDefault` on the
      objects themselves): it sits where `FindIndex` finds the id among their records. */
  function FirstWithId(s: seq<Account>, id: int): (a: Account?)
    reads s
    ensures a == null <==> FindIndex(Snapshot(s), id).None?
    ensures a != null ==> a == s[FindIndex(Snapshot(s), id).value]
  {
    if s == [] then null
    else if s[0].id == id then s[0]
    else
      assert Snapshot(s)[1..] == Snapshot(s[1..]);
      FirstWithId(s[1..], id)
  }

  class InMemoryAccountRepository {
    var accounts: seq<Account>
    var nextId: int

    /** The store's content as values. */
    function Records(): seq<AccountRecord>
      reads this, accounts
    {
      Snapshot(accounts)
    }

    ghost predicate Valid()
      reads this, accounts
    {
      WellFormed(Records(), nextId)
    }

    /** No other position holds the object at position `k`, since ids differ. */
    lemma {:induction false} Unaliased(k: nat)
      requires Valid() && k < |accounts|
      ensures forall m :: 0 <= m < |accounts| && m != k ==> accounts[m] != accounts[k]
    {
      forall m | 0 <= m < |accounts| && m != k ensures accounts[m] != accounts[k] {
        assert Records()[m].id != Records()[k].id;
      }
    }

    /** Writing the fields of the object at position `k`, and of no other stored
        object, changes exactly that record. */
    twostate lemma {:induction false} RecordWritten(k: nat)
      requires accounts == old(accounts) && k < |accounts|
      requires forall m :: 0 <= m < |accounts| && m != k ==> unchanged(accounts[m])
      ensures Records() == old(Records())[k := accounts[k].Record()]
    {
      var rs, rs' := old(Records()), Records();
      assert |rs'| == |rs|;
      forall m | 0 <= m < |rs| && m != k
        ensures rs'[m] == rs[m]
      {
        assert rs'[m] == accounts[m].Record();
        assert rs[m] == old(accounts[m].Record());
      }
    }

    constructor ()
      ensures Valid() && accounts == [] && nextId == 1
    {
      accounts := [];
      nextId := 1;
    }

    /** Gives `account` the next id and appends it. */
    method Add(account: Account)
      requires Valid() && account !in accounts
      modifies this, account
      ensures Valid()
      ensures accounts == old(accounts) + [account]
      ensures account.id == old(nextId) && nextId == old(nextId) + 1
      ensures Records() == Appended(old(Records()), old(nextId), old(account.owner), old(account.balance))
    {
      account.id := nextId;
      nextId := nextId + 1;
      accounts := accounts + [account];
      AddKeepsWellFormed(old(Records()), old(nextId), account.owner, account.balance);
      assert Records() == Appended(old(Records()), old(nextId), account.owner, account.balance);
    }

    /** The first stored account with the id, or null. The object returned is the
        one held in the list. */
    function GetById(id: int): (a: Account?)
      reads this, accounts
      ensures a == null <==> Find(Records(), id).None?
      ensures a != null ==> a.id == id && a == accounts[FindIndex(Records(), id).value]
    {
      FirstWithId(accounts, id)
    }

    /** The stored objects themselves, in insertion order. */
    function GetAll(): (all: seq<Account>)
      reads this
      ensures |all| == |accounts| && forall k :: 0 <= k < |all| ==> all[k] == accounts[k]
    {
      accounts
    }

    /** Copies the owner and balance of `account` onto the stored account with the
        same id; fails when there is none. */
    method Update(account: Account) returns (r: Outcome<Error>)
      requires Valid()
      modifies accounts
      ensures Valid() && accounts == old(accounts) && nextId == old(nextId)
      ensures match Replace(old(Records()), old(account.Record()))
        case Success(rs) => r == Pass && Records() == rs
        case Failure(e) => r == Fail(e) && Records() == old(Records())
    {
      ghost var before := Records();
      ghost var rec := account.Record();
      var existing := GetById(account.id);
      if existing == null {
        return Fail(AccountNotFound);
      }
      ghost var k := FindIndex(before, account.id).value;
      Unaliased(k);
      existing.owner := account.owner;
      existing.balance := account.balance;
      RecordWritten(k);
      assert Records() == before[k := before[k].(owner := rec.owner, balance := rec.balance)];
      WellFormedSameIds(before, Records(), nextId);
      r := Pass;
    }
  }
}
