/** The account entity, the id-keyed store that persists it, and the errors
    the service layer reports. */
module Accounts {
  import opened Wrappers

  /** A constant of the `AccountType` enum, named as `AccountType.valueOf` spells it. */
  datatype AccountType = AccountType(name: string)

  /** One row of the account table. `id` is absent until the store assigns one. */
  datatype Account = Account(
    id: Option<int>,
    userid: string,
    accountType: AccountType,
    creationDate: int,
    openBalance: real,
    balance: real)

  /** The persisted accounts, keyed by primary key. */
  type Store = map<int, Account>

  /** Errors that reach the caller instead of a value. */
  datatype Error =
    | NotFound(accountId: int)          // the service's NoRecordsFoundException
    | UnknownAccountType(name: string)  // AccountType.valueOf rejects the name
    | MissingScopeClaim                 // the token carries no `scope` claim

  /** Every stored record carries the key it is stored under as its id. */
  ghost predicate WellFormed(store: Store) {
    forall k :: k in store ==> store[k].id == Some(k)
  }

  /** No stored balance is negative. */
  ghost predicate NonNegative(store: Store) {
    forall k :: k in store ==> store[k].balance >= 0.0
  }

  /** `a` and `b` agree on every field except `balance`. */
  predicate SameExceptBalance(a: Account, b: Account) {
    a.(balance := b.balance) == b
  }
}
