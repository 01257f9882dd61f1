/** The account controller's business rules: the owner-scoped list query
    with its optional type filter, and the two balance mutations, each a
    read-modify-write of one stored account treated as one atomic step. */
module AccountController {
  import opened Wrappers
  import opened Accounts
  import opened AccountRepository
  import opened AccountService

  /** The HTTP status of a balance mutation: OK or EXPECTATION_FAILED. */
  datatype Status = Ok | ExpectationFailed

  /** What a balance mutation answers (status and balance) together with
      the store it leaves behind. */
  datatype BalanceResponse = BalanceResponse(status: Status, balance: real, store: Store)

  /** `find`: the account with the given id, or not-found. */
  function Find(store: Store, id: int): (r: Result<Account, Error>)
    requires WellFormed(store)
    ensures r.Success? <==> id in store
    ensures r.Success? ==> r.value == store[id]
    ensures r.Failure? ==> r.error == NotFound(id)
  {
    FindAccount(store, id)
  }

  /** `findAccounts`: without a type, all of the caller's accounts; with a
      type name, the caller's accounts of that type, once `valueOf` has
      accepted the name against the enum's constants `typeNames`. The owner
      always comes from the caller's claim. */
  function FindAccounts(store: Store, caller: string, typeParam: Option<string>,
                        typeNames: set<string>): (r: Result<set<Account>, Error>)
    ensures typeParam.None? ==> r.Success?
    ensures typeParam.Some? ==> (r.Success? <==> typeParam.value in typeNames)
    ensures r.Failure? ==> typeParam.Some? && r.error == UnknownAccountType(typeParam.value)
    ensures r.Success? ==> forall a :: a in r.value ==> a.userid == caller && a in store.Values
    ensures r.Success? && typeParam.Some? ==> forall a :: a in r.value ==> a.accountType.name == typeParam.value
    ensures r.Success? ==> r.value <= FindByUserid(store, caller)
    ensures r.Success? && typeParam.None? ==> r.value == FindByUserid(store, caller)
  {
    match typeParam
    case None => Success(FindByUserid(store, caller))
    case Some(t) =>
      if t in typeNames then Success(FindByUseridAndType(store, caller, AccountType(t)))
      else Failure(UnknownAccountType(t))
  }

  /** With a type, the answer is exactly the untyped answer restricted to
      that type. */
  lemma FindAccountsDispatch(store: Store, caller: string, t: string, typeNames: set<string>)
    requires t in typeNames
    ensures FindAccounts(store, caller, Some(t), typeNames).value
         == set a | a in FindAccounts(store, caller, None, typeNames).value && a.accountType.name == t
  {
  }

  /** `decreaseBalance`: debit `amount`. The debit is applied and saved
      exactly when the new balance would not be negative; otherwise nothing
      is saved and the old balance comes back with EXPECTATION_FAILED. There
      is no sign check on `amount`. */
  function DecreaseBalance(store: Store, accountId: int, amount: real): (r: Result<BalanceResponse, Error>)
    requires WellFormed(store)
    ensures r.Failure? <==> accountId !in store
    ensures r.Failure? ==> r.error == NotFound(accountId)
    ensures r.Success? ==>
      var before := store[accountId].balance;
      && (before - amount >= 0.0 ==>
            && r.value.status == Ok
            && r.value.balance == before - amount
            && r.value.store == store[accountId := store[accountId].(balance := before - amount)])
      && (before - amount < 0.0 ==>
            && r.value.status == ExpectationFailed
            && r.value.balance == before
            && r.value.store == store)
    ensures r.Success? ==> WellFormed(r.value.store) && r.value.store[accountId].balance == r.value.balance
    ensures r.Success? && NonNegative(store) ==> NonNegative(r.value.store)
  {
    match FindAccount(store, accountId)
    case Failure(e) => Failure(e)
    case Success(acc) =>
      var newBalance := acc.balance - amount;
      if newBalance >= 0.0 then
        // the record already has its id, so the generated-id argument is unused
        var saved := Save(store, acc.(balance := newBalance), accountId);
        Success(BalanceResponse(Ok, newBalance, saved.store))
      else
        Success(BalanceResponse(ExpectationFailed, acc.balance, store))
  }

  /** `increaseBalance`: credit `amount`. The credit is applied and saved
      exactly when `amount` is positive; otherwise nothing is saved and the
      current balance comes back with EXPECTATION_FAILED. */
  function IncreaseBalance(store: Store, accountId: int, amount: real): (r: Result<BalanceResponse, Error>)
    requires WellFormed(store)
    ensures r.Failure? <==> accountId !in store
    ensures r.Failure? ==> r.error == NotFound(accountId)
    ensures r.Success? ==>
      var before := store[accountId].balance;
      && (amount > 0.0 ==>
            && r.value.status == Ok
            && r.value.balance == before + amount
            && r.value.store == store[accountId := store[accountId].(balance := before + amount)])
      && (amount <= 0.0 ==>
            && r.value.status == ExpectationFailed
            && r.value.balance == before
            && r.value.store == store)
    ensures r.Success? ==> WellFormed(r.value.store) && r.value.store[accountId].balance == r.value.balance
    ensures r.Success? && NonNegative(store) ==> NonNegative(r.value.store)
  {
    match FindAccount(store, accountId)
    case Failure(e) => Failure(e)
    case Success(acc) =>
      if amount > 0.0 then
        var newBalance := acc.balance + amount;
        var saved := Save(store, acc.(balance := newBalance), accountId);
        Success(BalanceResponse(Ok, newBalance, saved.store))
      else
        Success(BalanceResponse(ExpectationFailed, acc.balance, store))
  }

  /** A balance mutation touches only the balance of the addressed account:
      the same keys are stored, every other account is untouched and the
      addressed one differs at most in `balance`. */
  predicate OnlyBalanceOf(store: Store, store': Store, accountId: int) {
    && store'.Keys == store.Keys
    && (forall k :: k in store && k != accountId ==> store'[k] == store[k])
    && (accountId in store ==> SameExceptBalance(store[accountId], store'[accountId]))
  }

  lemma MutationsChangeOnlyBalance(store: Store, accountId: int, amount: real)
    requires WellFormed(store)
    ensures DecreaseBalance(store, accountId, amount).Success? ==>
              OnlyBalanceOf(store, DecreaseBalance(store, accountId, amount).value.store, accountId)
    ensures IncreaseBalance(store, accountId, amount).Success? ==>
              OnlyBalanceOf(store, IncreaseBalance(store, accountId, amount).value.store, accountId)
  {
  }

  /** Without a sign check, debiting a negative amount from a non-negative
      balance behaves exactly like crediting its magnitude. */
  lemma NegativeDebitIsCredit(store: Store, accountId: int, amount: real)
    requires WellFormed(store)
    requires amount < 0.0
    requires accountId in store && store[accountId].balance >= 0.0
    ensures DecreaseBalance(store, accountId, amount) == IncreaseBalance(store, accountId, -amount)
    ensures DecreaseBalance(store, accountId, amount).value.balance > store[accountId].balance
  {
  }

  /** An accepted credit followed by a debit of the same amount restores the
      store exactly, and so does an accepted debit followed by the same credit. */
  lemma CreditDebitRoundTrip(store: Store, accountId: int, amount: real)
    requires WellFormed(store)
    requires accountId in store && store[accountId].balance >= 0.0 && amount > 0.0
    ensures var up := IncreaseBalance(store, accountId, amount).value;
            && up.status == Ok
            && DecreaseBalance(up.store, accountId, amount).value == BalanceResponse(Ok, store[accountId].balance, store)
    ensures var down := DecreaseBalance(store, accountId, amount).value;
            down.status == Ok ==>
              IncreaseBalance(down.store, accountId, amount).value == BalanceResponse(Ok, store[accountId].balance, store)
  {
  }

  /** One balance request as a client issues it. */
  datatype Request = Increase(accountId: int, amount: real) | Decrease(accountId: int, amount: real)

  /** The store after serving one request; a not-found request changes nothing. */
  function Apply(store: Store, req: Request): (r: Store)
    requires WellFormed(store)
    ensures WellFormed(r) && r.Keys == store.Keys
  {
    var res := match req
      case Increase(id, amount) => IncreaseBalance(store, id, amount)
      case Decrease(id, amount) => DecreaseBalance(store, id, amount);
    if res.Success? then res.value.store else store
  }

  /** The store after serving `reqs` one after another, each atomically. */
  function ApplyAll(store: Store, reqs: seq<Request>): (r: Store)
    requires WellFormed(store)
    ensures WellFormed(r) && r.Keys == store.Keys
    decreases |reqs|
  {
    if |reqs| == 0 then store else ApplyAll(Apply(store, reqs[0]), reqs[1..])
  }

  /** The balance invariant: when no stored balance is negative, none is
      negative after any sequence of increase and decrease requests. */
  lemma {:induction false} BalancesStayNonNegative(store: Store, reqs: seq<Request>)
    requires WellFormed(store) && NonNegative(store)
    ensures NonNegative(ApplyAll(store, reqs))
    decreases |reqs|
  {
    if |reqs| > 0 {
      var next := Apply(store, reqs[0]);
      assert NonNegative(next);
      BalancesStayNonNegative(next, reqs[1..]);
    }
  }

  /** Across any sequence of requests, every stored account keeps its id,
      owner, type, creation date and opening balance. */
  lemma {:induction false} OnlyBalancesEverChange(store: Store, reqs: seq<Request>)
    requires WellFormed(store)
    ensures forall k :: k in store ==> SameExceptBalance(store[k], ApplyAll(store, reqs)[k])
    decreases |reqs|
  {
    if |reqs| > 0 {
      var next := Apply(store, reqs[0]);
      var req := reqs[0];
      MutationsChangeOnlyBalance(store, req.accountId, req.amount);
      assert forall k :: k in store ==> SameExceptBalance(store[k], next[k]);
      OnlyBalancesEverChange(next, reqs[1..]);
    }
  }

  /** A sample session: balance 100.00, credit 50.00, then debits of
      200.00, 150.00 and 0.01. */
  lemma SampleSession(acc: Account)
    requires acc.id == Some(1) && acc.balance == 100.0
    ensures var s0 := map[1 := acc];
            var r1 := IncreaseBalance(s0, 1, 50.0).value;
            var r2 := DecreaseBalance(r1.store, 1, 200.0).value;
            var r3 := DecreaseBalance(r2.store, 1, 150.0).value;
            var r4 := DecreaseBalance(r3.store, 1, 0.01).value;
            && r1.status == Ok && r1.balance == 150.0
            && r2.status == ExpectationFailed && r2.balance == 150.0 && r2.store == r1.store
            && r3.status == Ok && r3.balance == 0.0
            && r4.status == ExpectationFailed && r4.balance == 0.0 && r4.store[1].balance == 0.0
  {
  }
}
