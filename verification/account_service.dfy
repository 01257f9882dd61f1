/** The account service: a thin layer over the repository that turns an
    empty lookup into a not-found error and hands back the id a save
    assigns. */
module AccountService {
  import opened Wrappers
  import opened Accounts
  import opened AccountRepository

  /** `findAccount`: an empty lookup becomes a not-found error, never an
      absent account. */
  function FindAccount(store: Store, id: int): (r: Result<Account, Error>)
    requires WellFormed(store)
    ensures r.Failure? <==> id !in store
    ensures r.Failure? ==> r.error == NotFound(id)
    ensures r.Success? ==> r.value.id == Some(id) && r.value in store.Values
  {
    match FindById(store, id)
    case None => Failure(NotFound(id))
    case Some(a) => Success(a)
  }

  /** Saving a record and looking its returned id up gives back the record,
      now carrying that id. */
  lemma SaveThenFind(store: Store, acc: Account, newId: int)
    requires WellFormed(store)
    requires acc.id.None? ==> newId !in store
    ensures var s := Save(store, acc, newId);
            FindAccount(s.store, s.id) == Success(acc.(id := Some(s.id)))
  {
  }
}
