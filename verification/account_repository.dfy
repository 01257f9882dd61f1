/** The account repository: lookups and saves by primary key, and the two
    owner-scoped queries. The JPQL queries read the owner from the caller's
    `user_id` claim; here that claim is the explicit `caller` argument. */
module AccountRepository {
  import opened Wrappers
  import opened Accounts

  /** `findById`: the record stored under `id`, or empty. */
  function FindById(store: Store, id: int): (r: Option<Account>)
    ensures r.Some? <==> id in store
    ensures r.Some? ==> r.value == store[id]
  {
    if id in store then Some(store[id]) else None
  }

  /** `findByUserid`: the accounts owned by the calling user. */
  function FindByUserid(store: Store, caller: string): (r: set<Account>)
    ensures forall a :: a in r ==> a.userid == caller && a in store.Values
    ensures forall k :: k in store && store[k].userid == caller ==> store[k] in r
  {
    set a | a in store.Values && a.userid == caller
  }

  /** `findByUseridAndType`: the calling user's accounts of type `t`. */
  function FindByUseridAndType(store: Store, caller: string, t: AccountType): (r: set<Account>)
    ensures forall a :: a in r ==> a.userid == caller && a.accountType == t && a in store.Values
    ensures forall k :: k in store && store[k].userid == caller && store[k].accountType == t ==> store[k] in r
  {
    set a | a in store.Values && a.userid == caller && a.accountType == t
  }

  /** The typed query is the untyped one filtered by type; in particular it
      is a subset, and every owned account shows up under its own type. */
  lemma TypedIsFilteredUntyped(store: Store, caller: string, t: AccountType)
    ensures FindByUseridAndType(store, caller, t) == set a | a in FindByUserid(store, caller) && a.accountType == t
    ensures FindByUseridAndType(store, caller, t) <= FindByUserid(store, caller)
    ensures forall a :: a in FindByUserid(store, caller) ==> a in FindByUseridAndType(store, caller, a.accountType)
  {
  }

  /** A caller who owns nothing gets an empty result, not an error, and only
      such a caller does. */
  lemma EmptyExactlyWhenNoneOwned(store: Store, caller: string)
    ensures FindByUserid(store, caller) == {} <==> forall k :: k in store ==> store[k].userid != caller
  {
    if !forall k :: k in store ==> store[k].userid != caller {
      var k :| k in store && store[k].userid == caller;
      assert store[k] in FindByUserid(store, caller);
    }
  }

  /** Result of `save`: the id the service hands back and the updated table. */
  datatype Saved = Saved(id: int, store: Store)

  /** `save`: a record without an id is inserted under the freshly generated
      key `newId`; a record with an id overwrites (or inserts) that row as a
      whole. The id generator belongs to the database, so `newId` is an input. */
  function Save(store: Store, acc: Account, newId: int): (r: Saved)
    requires WellFormed(store)
    requires acc.id.None? ==> newId !in store
    ensures WellFormed(r.store)
    ensures acc.id.Some? ==> r.id == acc.id.value
    ensures acc.id.None? ==> r.id == newId && r.id !in store
    ensures r.store.Keys == store.Keys + {r.id}
    ensures r.store[r.id] == acc.(id := Some(r.id))
    ensures forall k :: k in store && k != r.id ==> r.store[k] == store[k]
  {
    var id := if acc.id.Some? then acc.id.value else newId;
    Saved(id, store[id := acc.(id := Some(id))])
  }

  /** Saving the same record a second time, with the id the first save
      reported, changes nothing further. */
  lemma SaveIdempotent(store: Store, acc: Account, newId: int, newId2: int)
    requires WellFormed(store)
    requires acc.id.None? ==> newId !in store
    ensures var s := Save(store, acc, newId);
            Save(s.store, acc.(id := Some(s.id)), newId2) == s
  {
  }

  /** Writing back an unmodified stored record leaves the table as it was. */
  lemma SaveStoredIsIdentity(store: Store, k: int, newId: int)
    requires WellFormed(store)
    requires k in store
    ensures Save(store, store[k], newId) == Saved(k, store)
  {
  }
}
