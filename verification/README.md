# Accounts service — Dafny model

This project models the business core of the accounts microservice. That
service stores user accounts and adjusts their balances:

- **Account store** (`AccountRepository`). Accounts live in a table keyed by
  an integer primary key. Two queries list the calling user's accounts, one
  of them filtered by account type. The caller is identified by the `user_id`
  claim of the access token. Lookups and saves go by primary key.
- **Balance rules** (`AccountController.decreaseBalance` and
  `increaseBalance`). Each is a read-modify-write of one account:
  - a debit is applied only when the new balance is not negative;
  - a credit is applied only when the amount is positive;
  - a rejected request saves nothing and answers EXPECTATION_FAILED with
    the old balance.

  `findAccounts` picks the typed or untyped query.
- **Scope-to-authority mapping** (`GrantedAuthoritiesConverter`). Every
  token scope except the exact string `openid` becomes `ROLE_` plus the
  scope, upper-cased, with each `.` replaced by `_`. The one access rule
  demands the authority `ROLE_ACCOUNT`.

Everything is pure functions over immutable values:

- An `Account` datatype and a `map<int, Account>` store, where each record
  carries its own key as its id (`WellFormed`).
- Amounts and balances as exact `real`s.
- A balance operation returns a `Result`: either not-found, or a status,
  a balance and the new store.
- The caller's `user_id` claim is an explicit `caller` argument.
- The token's `scope` claim is an explicit `Option<seq<string>>`.

Files:

- `wrappers.dfy`: Option and Result.
- `accounts.dfy`: the entity, the store and the errors.
- `account_repository.dfy`: the repository queries and `save`.
- `account_service.dfy`: the service's lookup by id, which turns an empty lookup into a not-found error.
- `account_controller.dfy`: the controller's list query and the two balance mutations.
- `granted_authorities.dfy`: the scope-to-authority converter.
- `security_config.dfy`: the access rule.

Facts about the code that shape the model:

- The two list queries take no user argument. They read the owner from
  the token's `user_id` claim (AccountRepository.java:13, 16). The model
  therefore takes the owner from the `caller` argument, never from a
  request parameter.
- The javadoc of `increaseBalance` says a credit succeeds when the amount
  "is not negative" (AccountController.java:144-147). The code tests
  `amount > 0` (:166), so a zero credit is rejected. The model follows the
  code.
- The two mutations differ on non-finite amounts. `decreaseBalance`
  converts every amount with `new BigDecimal(amount)`
  (AccountController.java:128), which throws for NaN and both infinities. `increaseBalance` tests `amount > 0` first
  (:166). NaN and negative infinity therefore fail that test and get
  EXPECTATION_FAILED with the balance unchanged (:175-178). Only positive
  infinity reaches `new BigDecimal` (:168) and throws. Amounts here are
  exact reals, so none of these cases arises.
- Only the two mutations keep `balance >= 0`. The `save` endpoint
  (AccountController.java:97) stores whatever balance it is given. The
  invariant lemmas therefore assume a store with no negative balance.

## Model

| member | source | states |
|---|---|---|
| AccountRepository.FindById | src/main/java/io/pivotal/accounts/repository/AccountRepository.java:11 | the lookup by primary key yields a record exactly when the key is stored, and then the record stored under it |
| AccountService.FindAccount | src/test/java/io/pivotal/accounts/service/AccountServiceTest.java:88-92 | an absent id is a NotFound error, never an empty account; a present id yields the stored record, whose id is that key |
| AccountRepository.FindByUserid | src/main/java/io/pivotal/accounts/repository/AccountRepository.java:16-17 | every returned account is stored and owned by the caller, and every stored account the caller owns is returned |
| AccountRepository.FindByUseridAndType | src/main/java/io/pivotal/accounts/repository/AccountRepository.java:13-14 | exactly the stored accounts owned by the caller whose type is the given one |
| AccountRepository.TypedIsFilteredUntyped | src/main/java/io/pivotal/accounts/repository/AccountRepository.java:13-17 | the typed query equals the untyped one filtered by type, so it is a subset, and each owned account appears under its own type |
| AccountRepository.EmptyExactlyWhenNoneOwned | src/test/java/io/pivotal/accounts/service/AccountServiceTest.java:67-72 | the caller's list is empty, not an error, exactly when no stored account belongs to the caller |
| AccountRepository.Save | src/main/java/io/pivotal/accounts/repository/AccountRepository.java:11 | save keeps the store well-formed; a record with an id is written under that id, one without under the fresh generated key; only that key changes |
| AccountService.SaveThenFind | src/test/java/io/pivotal/accounts/service/AccountServiceTest.java:97-102 | looking up the id that save reports returns the saved record carrying that id |
| AccountRepository.SaveIdempotent | src/main/java/io/pivotal/accounts/repository/AccountRepository.java:11 | saving the same record again under its reported id leaves the store and the id unchanged |
| AccountRepository.SaveStoredIsIdentity | src/main/java/io/pivotal/accounts/repository/AccountRepository.java:11 | writing back an unmodified stored record changes nothing |
| AccountController.Find | src/main/java/io/pivotal/accounts/controller/AccountController.java:60-68 | GET of an account id answers the stored record, or NotFound when the id is absent |
| AccountController.FindAccounts | src/main/java/io/pivotal/accounts/controller/AccountController.java:70-81 | without a type, the caller's full list; with a known type name, only the caller's accounts of that type; an unknown name is an error; never another user's account |
| AccountController.FindAccountsDispatch | src/main/java/io/pivotal/accounts/controller/AccountController.java:74-80 | for a known type name, the typed answer is exactly the untyped answer restricted to that type |
| AccountController.DecreaseBalance | src/main/java/io/pivotal/accounts/controller/AccountController.java:119-140 | absent id is NotFound; if balance − amount ≥ 0, OK with the new balance, which is stored; otherwise EXPECTATION_FAILED with the old balance and the store untouched; a non-negative store stays non-negative |
| AccountController.IncreaseBalance | src/main/java/io/pivotal/accounts/controller/AccountController.java:155-181 | absent id is NotFound; if amount > 0, OK with balance + amount, which is stored; otherwise EXPECTATION_FAILED with the current balance and the store untouched; a non-negative store stays non-negative |
| AccountController.MutationsChangeOnlyBalance | src/main/java/io/pivotal/accounts/controller/AccountController.java:126-173 | either mutation keeps the key set and every other account, and changes only the balance of the addressed one |
| AccountController.NegativeDebitIsCredit | src/main/java/io/pivotal/accounts/controller/AccountController.java:128-133 | with no sign check, debiting a negative amount from a non-negative balance is exactly a credit of its magnitude and raises the balance |
| AccountController.CreditDebitRoundTrip | src/main/java/io/pivotal/accounts/controller/AccountController.java:126-173 | from a non-negative balance, a positive credit is accepted and the debit of the same amount then restores the original store; an accepted debit followed by the same credit restores it too |
| AccountController.BalancesStayNonNegative | src/main/java/io/pivotal/accounts/controller/AccountController.java:126-178 | from a store with no negative balance, any sequence of increase and decrease requests leaves no negative balance |
| AccountController.OnlyBalancesEverChange | src/main/java/io/pivotal/accounts/controller/AccountController.java:131-172 | over any sequence of requests, each stored account keeps its id, owner, type, creation date and opening balance |
| AccountController.SampleSession | src/main/java/io/pivotal/accounts/controller/AccountController.java:119-181 | a sample session from balance 100.00: credit 50.00 gives OK 150.00; debit 200.00 is refused at 150.00; debit 150.00 gives OK 0.00; debit 0.01 is refused at 0.00 |
| GrantedAuthorities.ToUpper | src/main/java/io/pivotal/accounts/config/GrantedAuthoritiesConverter.java:19 | upper-casing keeps the length and upper-cases each ASCII letter in place |
| GrantedAuthorities.ReplaceDots | src/main/java/io/pivotal/accounts/config/GrantedAuthoritiesConverter.java:19 | keeps the length, turns each '.' into '_', leaves other characters, and leaves no '.' |
| GrantedAuthorities.Authority | src/main/java/io/pivotal/accounts/config/GrantedAuthoritiesConverter.java:19 | an authority is "ROLE_" followed by the scope character for character, each upper-cased with '.' as '_', and contains no '.' |
| GrantedAuthorities.AuthorityIsRoleIff | src/main/java/io/pivotal/accounts/config/GrantedAuthoritiesConverter.java:19 | for a role name without '.' or '_', a scope maps to "ROLE_" plus that name if and only if it upper-cases to the name |
| GrantedAuthorities.AuthoritiesOf | src/main/java/io/pivotal/accounts/config/GrantedAuthoritiesConverter.java:18-20 | a string is granted exactly when it is the authority of some scope other than "openid" |
| GrantedAuthorities.ExtractAuthorities | src/main/java/io/pivotal/accounts/config/GrantedAuthoritiesConverter.java:16-21 | a missing scope claim fails; otherwise every non-"openid" scope yields its authority, every authority comes from such a scope, and each starts with "ROLE_" and has no '.' |
| GrantedAuthorities.AtMostOnePerDistinctScope | src/main/java/io/pivotal/accounts/config/GrantedAuthoritiesConverter.java:18-20 | the result set has no more elements than there are distinct scopes other than "openid" |
| GrantedAuthorities.OnlyTheSetOfScopesMatters | src/main/java/io/pivotal/accounts/config/GrantedAuthoritiesConverter.java:18-20 | two scope lists with the same elements yield the same authorities, whatever their order or repetitions |
| GrantedAuthorities.DuplicatesCollapse | src/main/java/io/pivotal/accounts/config/GrantedAuthoritiesConverter.java:20 | repeating a scope adds no authority |
| GrantedAuthorities.SingleScope | src/main/java/io/pivotal/accounts/config/GrantedAuthoritiesConverter.java:18-19 | a lone scope yields nothing if it is exactly "openid", and otherwise exactly its own authority |
| GrantedAuthorities.OpenIdIsDropped | src/main/java/io/pivotal/accounts/config/GrantedAuthoritiesConverter.java:18 | the scope "openid" yields no authority |
| GrantedAuthorities.FilterIsCaseSensitive | src/main/java/io/pivotal/accounts/config/GrantedAuthoritiesConverter.java:18 | "OPENID" is not filtered and yields ROLE_OPENID |
| GrantedAuthorities.FilterIsExact | src/main/java/io/pivotal/accounts/config/GrantedAuthoritiesConverter.java:18 | "openid.x" is not filtered and yields ROLE_OPENID_X |
| GrantedAuthorities.MappingIsNotInjective | src/main/java/io/pivotal/accounts/config/GrantedAuthoritiesConverter.java:19-20 | "a.b", "a_b" and "A.b" together yield the single authority ROLE_A_B |
| SecurityConfig.HasAccess | src/main/java/io/pivotal/accounts/config/SecurityConfig.java:26 | a token without a scope claim is refused |
| SecurityConfig.AccountAuthorityIff | src/main/java/io/pivotal/accounts/config/GrantedAuthoritiesConverter.java:19 | a scope maps to ROLE_ACCOUNT if and only if it upper-cases to "ACCOUNT" |
| SecurityConfig.AccessIff | src/main/java/io/pivotal/accounts/config/SecurityConfig.java:26 | access is granted if and only if some scope upper-cases to "ACCOUNT", which "openid" never does |
| SecurityConfig.AccountScopeGrantsAccess | src/main/java/io/pivotal/accounts/config/SecurityConfig.java:26 | scopes "openid" and "account" are let through |
| SecurityConfig.OpenIdAloneIsRefused | src/main/java/io/pivotal/accounts/config/SecurityConfig.java:26 | the scope "openid" alone is refused |
| SecurityConfig.DottedAccountScopeIsRefused | src/main/java/io/pivotal/accounts/config/SecurityConfig.java:26 | the scope "account.read" alone is refused |

## Left out

- Amount conversions: the `double` path parameter, `new BigDecimal(double)` and the `doubleValue()` answers are binary floating point. Amounts and balances are exact reals. So the non-finite amounts are not modelled, and on those the two mutations differ: `decreaseBalance` throws for NaN and both infinities (AccountController.java:128), while `increaseBalance` answers EXPECTATION_FAILED for NaN and negative infinity (:166, :175-178) and throws only for positive infinity (:168).
- HTTP plumbing: `ResponseEntity`, the no-cache header, the Location URI of the `save` endpoint, and JSON. A balance answer keeps only the OK / EXPECTATION_FAILED status and the balance. The `save` endpoint is modelled through the repository `Save`, which returns the id.
- Concurrency: two requests on the same account can interleave between the read and the save and lose an update. Each request is modelled as one atomic step.
- `AccountService`, the `Account` domain class and the `AccountType` enum are not part of this model. Following the service tests, the service's `findAccount`, `findAccounts`, `findAccountsByType` and `saveAccount` are modelled as direct calls to the repository (`AccountService.FindAccount` adds the not-found error for an absent id). The enum's constants are the `typeNames` argument of `FindAccounts`, and any defaulting of the creation date on insert is not modelled.
- AccountController.FindAccounts: the controller logs the `name` request parameter (AccountController.java:73) and passes it on to `findAccounts` and `findAccountsByType` (:75, :78). `AccountService` is not part of this model, so what it does with the parameter is not modelled. The model drops the parameter and takes the owner from the caller's `user_id` claim, as the repository queries do (AccountRepository.java:13, 16) and as the service tests' calls `findAccounts()` and `findAccountsByType(type)` without a user argument suggest (AccountServiceTest.java:60, 80).
- JPA and JPQL evaluation, and the SpEL lookup of `principal.claims['user_id']`: the caller's `user_id` is the explicit `caller` argument. Query results are sets, since the order of the returned list is up to the database.
- AccountRepository.Save: the generated id is an input that must be unused. A record whose id is not yet in the table is inserted under that id. JPA's merge of a detached entity with an unknown id is not modelled.
- Token decoding: OIDC issuer discovery, JWT signature and issuer validation, and the rest of the filter chain (CSRF, disabled anonymous access) are not modelled. The only rule modelled is "has authority ROLE_ACCOUNT". A `scope` claim that is not a collection of strings, or that holds a null element, makes the source throw; the model takes the claim as a list of strings or as absent.
- GrantedAuthorities.ToUpper: upper-cases ASCII letters only. Java's `toUpperCase` is locale-dependent and also maps non-ASCII characters, some of them to more than one character.
- `AccountsApplication`: Spring bootstrap, service discovery, circuit breaker, and the global hostname-verifier override.
- The `/accounts/transaction` credit/debit endpoint exercised by the controller tests is not in the controller modelled here. Its tests agree with the accept/reject rules of `increaseBalance` and `decreaseBalance`.
