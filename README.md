# Budget app backend: a verified model of its core

The budget app is a FastAPI service over MongoDB. Users register, log in for a
bearer token, and keep a ledger of income and expense transactions. The service
lists the ledger newest first, reads and soft-deletes single transactions, and
reports a balance. This project models that core in Dafny and proves what each
route promises:

- `models.dfy` (module `Models`) holds request validation and the stored and
  response records:
  - the two enums;
  - the password-strength validator and the field constraints, with every
    failed constraint reported;
  - the defaults a new user or transaction gets.
- `security.py` is modelled in `security.dfy` (module `Security`):
  - `authenticate_user`;
  - `create_access_token`, over a mutable claims dict that it copies;
  - `get_current_user`, with each of its outcomes.

  bcrypt and JWT are passed in as functions (`PasswordHasher`, `TokenCodec`).
  The facts about them that a proof relies on are predicates the lemma requires:
  - a password verifies against its own hash;
  - a hash differs from its plaintext;
  - a token decodes to its claims until it expires.
- `auth.py` is modelled in `auth.dfy` (module `Auth`):
  - `register` is a method of the `UserStore` class, which holds the users
    collection;
  - `login` is a function.

  The lemmas tie the two routes together:
  - a registered user can log in;
  - the token that login issues authorizes requests until it expires;
  - an email cannot be registered twice while its owner is live;
  - unknown emails and wrong passwords get the same answer.
- `transactions.py` is modelled in `transactions.dfy` (module `Transactions`):
  - its five routes are methods of the `Ledger` class, which holds the
    transactions collection;
  - specification functions give the caller's view (`Visible`), the
    aggregation (`Aggregate`, `Total`, `CountOf`), the newest-first sort and
    the paging.

  The lemmas cover:
  - isolation between users;
  - the effect of a create or a soft delete on the view and the balance;
  - a second delete of the same id failing;
  - the listing's order, bound and completeness.
- `collection.dfy` (module `Collection`) holds the two MongoDB reads the
  handlers rely on:
  - `find`, which keeps every match in storage order;
  - `find_one` / `update_one`, which act on the first match.
- `storeddates.dfy` (module `StoredDates`) models the ISO 8601 text in which a
  transaction's date is stored, and the byte order MongoDB sorts that text in
  (see Findings).
- `wrappers.dfy` holds `Option` and `Result`.

Conventions:
- Amounts are exact `real`s.
- Times are whole seconds since the epoch.
- Public ids are their UUID text.
- `get_transactions` takes `skip` and `limit` as arguments. Their query defaults, 0 and 100, are `DefaultSkip` and `DefaultLimit`, and `DefaultPage` states what a request that omits them gets.
- A request ends in one of three `ApiError` forms:
  - an `HttpError` with the status and detail the handler raises;
  - `Unprocessable` with the failed field constraints (422);
  - `InternalError`, an exception nothing catches (500).

The clock and `uuid4()` are parameters of the operations that use them. A fresh
id is a precondition: the id is not already stored.

## Model

| member | source | states |
|---|---|---|
| Collection.FirstMatch | backend/app/security.py:124-126 | `find_one` yields the first document matching the filter, nothing before it matches, and it yields nothing exactly when no document matches |
| Collection.Filter | backend/app/transactions.py:68-73 | `find` keeps only matching documents and never more than there are |
| Collection.FilterMembers | backend/app/transactions.py:68-73 | a document is returned exactly when it is stored and matches the filter |
| Models.ParseType | backend/app/models.py:15-19 | a type string parses to a member exactly when that member's value is the string |
| Models.ParseCategory | backend/app/models.py:22-39 | a category string parses to a member exactly when that member's value is the string (twelve members, one enum) |
| Models.AnyChar | backend/app/models.py:66-71 | `any(...)` over a string is true exactly when some character satisfies the test |
| Models.ValidatePassword | backend/app/models.py:57-72 | a password is accepted exactly when it has 8+ characters, an uppercase letter, a lowercase letter and a digit; otherwise the first failing check in source order is the error; an accepted password is returned unchanged |
| Models.WeakIsRejected | backend/tests/test_app.py:126-136 | the test's registration with password "weak" is refused with the password-length error only (422); the validator alone would also reject "weak" as too short |
| Models.ValidPass123IsAccepted | backend/app/models.py:57-72 | the password the tests register with is accepted |
| Models.ValidateUserCreate | backend/app/models.py:42-55 | a registration body is accepted exactly when the full name has 1-100 characters and the password has 8-100 characters and is strong; each failed constraint is reported, and the strength validator runs only on a password whose length passed |
| Models.TooShortNeverReported | backend/app/models.py:55-65 | the validator's own too-short error can never reach a client, because the field's length constraint fires first |
| Models.ValidateTransactionCreate | backend/app/models.py:101-113 | a transaction body is accepted exactly when type and category are enum values, the amount is > 0 and the description has at most 500 characters; description defaults to "" and date to now; each failed constraint is reported |
| Models.CategoryNotTiedToType | backend/app/models.py:101-108 | an income with an expense category ("food") is accepted |
| Models.NewUser | backend/app/models.py:75-86 | a new user is live, active and stamped created/updated at now, with the given id |
| Models.NewTransaction | backend/app/models.py:117-127 | a new transaction is live, owned by the caller, stamped at now and keeps the validated fields |
| Security.FindUserUnique | backend/app/security.py:95-100 | in a store with unique public ids and unique live emails, the user found is the one that matches |
| Security.FindUserAppended | backend/app/auth.py:37-57 | a user appended to a store with no match is the one a later lookup finds |
| Security.AuthenticateUser | backend/app/security.py:117-138 | the result is a stored live user with that email whose hash verifies the password; no live user with the email gives None; a found user whose hash rejects the password gives None |
| Security.AuthenticateUserIff | backend/app/security.py:117-138 | in a valid store, authentication succeeds exactly when some live user has the email and the password verifies |
| Security.AccessTokenClaims | backend/app/security.py:46-55 | the encoded claims are the caller's plus `exp`; `exp` is now + delta for a nonzero delta and now + 30 minutes otherwise (a zero timedelta counts as absent) |
| Security.ClaimDict.Copy | backend/app/security.py:46 | `dict.copy()` is a new dict with the same entries |
| Security.ClaimDict.Update | backend/app/security.py:55 | `update` sets the one key |
| Security.CreateAccessToken | backend/app/security.py:41-60 | the token encodes the caller's claims plus `exp`, and the caller's dict is not modified |
| Security.DecodeChecked | backend/app/security.py:81-83 | `jwt.decode` fails on a bad signature or expiry, and on a `sub` that is present but not text; otherwise it yields the payload |
| Security.GetCurrentUser | backend/app/security.py:63-114 | a token that fails to decode, or lacks `sub` or `email` (or holds null), or names no live user gives 401 "Could not validate credentials"; a text `sub` with a non-text `email` gives an uncaught error, and only that does; a live user named by `sub` is returned when active and gives 403 "Inactive user account" when inactive |
| Security.NonTextSubjectIsUnauthenticated | backend/app/security.py:78-92 | a non-text `sub` is refused inside `jwt.decode`, whose `JWTError` the handler turns into the 401 |
| Auth.UserStore.Register | backend/app/auth.py:24-64 | an invalid body gives 422 and changes nothing; an email held by a live user gives 400 "Email already registered" and changes nothing; otherwise exactly one user with the hashed password is appended and the response carries only public fields; the store keeps unique ids and unique live emails |
| Auth.Login | backend/app/auth.py:67-98 | login fails exactly when authentication fails, always with 401 "Incorrect email or password"; otherwise it returns a bearer token encoding the user's public id, email and an expiry 30 minutes ahead |
| Auth.UnknownEmailAndWrongPasswordLookAlike | backend/app/auth.py:81-89 | an unknown email and a wrong password give identical responses |
| Auth.DeletedUsersEmailIsFree | backend/app/auth.py:37-45 | an email held only by soft-deleted users is free to register |
| Auth.StoredCredentialIsNotPlaintext | backend/app/auth.py:47-54 | the hash assumption applied to one new user: the stored credential, `hash(password)`, differs from the password |
| Auth.RegisteredUserCanLogIn | backend/app/auth.py:37-64 | after a successful registration the same email and password authenticate as the new user, and login succeeds |
| Auth.LoginThenAuthorize | backend/app/auth.py:91-98 | a token from login, presented before it expires, yields the user who logged in, or 403 when that user is inactive |
| Auth.RegisteredEmailIsTaken | backend/app/auth.py:37-45 | once an email is registered, registering it again is refused |
| Transactions.VisibleMembers | backend/app/transactions.py:68-73 | a user's view holds exactly the stored records that user owns and has not deleted |
| Transactions.VisibleAppend | backend/app/transactions.py:36-42 | a stored record joins only its owner's view |
| Transactions.CountsAddUp | backend/app/transactions.py:189-195 | income and expense counts add up to the number of records |
| Transactions.TotalPositiveIffPresent | backend/app/transactions.py:174-178 | with positive amounts, a type's total is nonnegative and is positive exactly when a record of that type exists |
| Transactions.AbsentTypeTotalsZero | backend/app/transactions.py:185-186 | a type with no records totals 0, the value the handler starts from |
| Transactions.Aggregate | backend/app/transactions.py:167-183 | the `$group` stage yields one group per type present, each with the type's total and count, and no group for an absent type |
| Transactions.BalanceAfterCreate | backend/app/transactions.py:36-42 | a new record adds its amount to its type's total and 1 to the count in its owner's balance, and changes no other user's balance |
| Transactions.SoftDeleted | backend/app/transactions.py:141-148 | the update sets `deleted_at` of the one record and changes no other |
| Transactions.SoftDeleteViews | backend/app/transactions.py:141-148 | soft-deleting removes the record from its owner's view and leaves every other view unchanged |
| Transactions.BalanceAfterDelete | backend/app/transactions.py:141-148 | soft-deleting subtracts the amount from its type's total and 1 from the owner's count, and changes no other user's balance |
| Transactions.SecondDeleteFindsNothing | backend/app/transactions.py:141-154 | with unique ids, a record once deleted is not found again, so a second delete gives 404 while the record stays stored |
| Transactions.InsertByDate | backend/app/transactions.py:73 | inserting one record lengthens the sequence by one |
| Transactions.InsertByDateKeeps | backend/app/transactions.py:73 | inserting keeps every record and adds exactly the new one |
| Transactions.InsertByDateSorted | backend/app/transactions.py:73 | inserting into a newest-first sequence keeps it newest first |
| Transactions.SortByDateDesc | backend/app/transactions.py:73 | the sort returns the same records, newest first |
| Transactions.Page | backend/app/transactions.py:73 | `skip/limit` returns the consecutive run starting after `skip`, at most `abs(limit)` long (0 = no limit), and stops early only at the end of the input |
| Transactions.ListingProperties | backend/app/transactions.py:68-87 | a listing shows only the caller's live records, newest first and within the limit; with skip 0 and limit 0 (no limit) it shows each of them exactly once |
| Transactions.DefaultPage | backend/app/transactions.py:59-60 | a request without `skip` and `limit` gets at most 100 records: all the caller's live records, newest first, when there are at most 100, otherwise the newest 100 |
| Transactions.NothingLiveNothingShown | backend/app/transactions.py:185-204 | a user with no live records gets an empty listing and a zero balance |
| Transactions.BalanceScenario | backend/tests/test_app.py:299-338 | income 3000 and expense 500 give balance 2500 over 2 records, unaffected by another user's records; deleting the expense gives 3000 over 1 |
| Transactions.Ledger.CreateTransaction | backend/app/transactions.py:26-52 | an invalid body gives 422 and stores nothing; otherwise exactly one live record owned by the caller is appended and its public fields are returned; ids stay unique and every stored amount stays positive |
| Transactions.Ledger.GetTransactions | backend/app/transactions.py:55-87 | a negative skip is an uncaught error; otherwise the responses are the caller's listing in order, at most `abs(limit)` of them, newest first by instant (see Findings) |
| Transactions.Ledger.GetTransaction | backend/app/transactions.py:90-124 | the response is the caller's live record with that id; it exists exactly when such a record is stored; every failure is the same 404 "Transaction not found" |
| Transactions.Ledger.DeleteTransaction | backend/app/transactions.py:127-154 | with no live record of the caller with that id, 404 and nothing changes; otherwise the first such record is soft-deleted at now and nothing else changes |
| Transactions.Ledger.GetBalance | backend/app/transactions.py:157-204 | the balance has the totals of the caller's live incomes and expenses, their difference, and the number of those records |
| StoredDates.TextBeforeAsymmetric | backend/app/transactions.py:73 | the string order is a strict order: never both ways, never reflexive |
| StoredDates.TextBeforeBlocks | backend/app/transactions.py:73 | string order compares equal-length leading blocks first |
| StoredDates.TwoDigitsOrder | backend/app/transactions.py:42 | two-digit fields compare as text as they compare as numbers |
| StoredDates.EarlierHourFieldFirst | backend/app/transactions.py:73 | on one day, a stored date with an earlier hour field sorts first as text, whatever its offset |
| StoredDates.UtcTextOrderIsTimeOrder | backend/app/transactions.py:73 | for two whole-second UTC dates on the same day, the stored-text order is the time order |
| StoredDates.OffsetDatesSortWrongly | backend/app/transactions.py:73 | 10:00+05:00 (05:00 UTC) sorts newer than 08:00Z, although it is earlier in time |

## Left out

- Models.ValidatePassword: `str.isupper`, `str.islower` and `str.isdigit` are modelled on ASCII letters and digits only; other Unicode letters and digits count in the source.
- Models.ValidateUserCreate: `EmailStr` is not modelled. Its format check is left out, so every email string is accepted. So is its normalization (the domain is lowercased): `register` stores and duplicate-checks the normalized address, while `login` looks up the raw form field, so `Auth.RegisteredUserCanLogIn` holds in the source only for an address that is already normalized.
- Security.GetCurrentUser: `TokenData`'s UUID parse of `sub` is not modelled. Text that is not a UUID fails there, an error the handler does not catch. In the model it simply matches no user.
- bcrypt's random salt and its cost are not modelled: hashing is a function parameter. Signing, the secret key and the algorithm are left out the same way.
- Amounts are exact reals. Float rounding in `$sum` and in `total_income - total_expenses` is left out.
- Times are whole seconds. Sub-second precision and the microseconds `datetime.now` carries are left out.
- Async execution and concurrent requests are left out. Each route is one atomic step, so two concurrent registrations of one email cannot both succeed in the model.
- Transactions.Ledger.GetTransactions: the listing is ordered by instant. In the source `.sort("date", -1)` orders the stored ISO text, which is date order only while every stored date is written the same way (same offset, same fractional-second form); see Findings.
- Transactions.SortByDateDesc: records with equal dates come out in the order of this insertion sort; MongoDB leaves their order unspecified. Only the newest-first order and the permutation are proved.
- Reading settings from the environment (config.py) is left out. The token lifetime is its default of 30 minutes; the secret and algorithm live inside `TokenCodec`.
- The HTTP layer is left out: headers, CORS, routing, the bearer-scheme parsing of `HTTPBearer`, response serialization. So is the re-parsing of stored documents into response models, which is the identity in the model.
- main.py and database.py (app wiring and the Mongo connection) are not part of this model.
- No route soft-deletes a user, so users are only ever appended. Categories are not tied to a transaction type: `CategoryNotTiedToType` shows any category is accepted with either type.

## Findings

| source | as written | input that shows it | evidently intended | confidence | as-written member | corrected member |
|---|---|---|---|---|---|---|
| backend/app/transactions.py:42,73 | the record is stored with `model_dump(mode="json")`, so `date` is ISO 8601 text, and `.sort("date", -1)` orders that text byte by byte | two transactions on 2024-01-01 dated `10:00:00+05:00` (05:00 UTC) and `08:00:00Z`: the earlier one is listed first | listing newest first by instant | medium, not executed | StoredDates.OffsetDatesSortWrongly | Transactions.SortByDateDesc |

The model's ledger stores dates as instants and sorts on them (`Transactions.SortByDateDesc`, used by `Transactions.Listing`). `StoredDates.UtcTextOrderIsTimeOrder` shows that the text order agrees with time order for two dates on the same day, both written as whole-second UTC; dates on different days and fractional seconds are not covered by that lemma.
