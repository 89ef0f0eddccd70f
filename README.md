# file-server: user registration core

A Dafny model of the registration path of the file-server service. A client
posts `{username, email, password}` to `/user/register`. The handler runs
`Database::insert_user` on the blocking pool, and `insert_user` does these steps:

1. It takes a pooled SQLite connection.
2. It generates a 32-character alphanumeric API key. It draws candidates until
   the query for a row whose `api_key` equals the candidate returns no row.
   The query's error ends the retry: `NotFound`, but also a failure of the
   store such as a locked database, which keeps the candidate unchecked.
3. It hashes the key with argon2.
4. It inserts the row.
5. It reads the row back by username. If that query fails, the `unwrap`
   panics.
6. It returns the row with the plaintext key.

The handler then turns the nested result into a status code and a body.

Modules, one per concern of `src/database.rs` and `src/user.rs`:

- `ApiKeys`: the key shape. One draw is 32 samples of the 62-character
  alphabet, and a key is the string they spell. `KeyOf` and `Unspell` are
  inverse to each other.
- `UsersTable`: the rows of `users`, the `filter(column.eq(v)).first()`
  query, and the `Table` class whose rows change only when an insert is
  accepted.
- `DatabaseErrors`: `DatabaseError` and its display text.
- `ConflictClassifier`: `split_once` and the `map_err` closure that reads the
  conflicting column out of the database's error text.
- `KeyGenerator`: `generate_api_key` as a loop over the stream of random draws.
- `Database`: `hash_api_key`, and `insert_user` as a specification function
  `InsertUserRun`. The method `Database.InsertUser` is proved equal to it,
  and the lemmas about it state the error order.
- `UserRoutes`: `register`, as the pure decision table `Register` and
  end-to-end lemmas over `InsertUserRun`.

Inputs from outside the core are parameters, bundled in `Database.Environment`:

- whether the pool yields a connection;
- the random draws, and for each draw whether its `api_key` query fails;
- the salt from `OsRng`;
- the argon2 hasher, as a function that may fail;
- the database engine's verdict on the insert: accepted with an id, or
  rejected with an error message;
- whether the re-read query after the insert fails.

A panic from an `unwrap` is the `Panicked` outcome. `web::block` reports it
as the outer `Err`.

Facts about the code that the model keeps:

- The password is stored exactly as it arrives. It is not hashed.
- The 201 response carries only `username` and `email`, not the API key.
- There is no login or key rotation.
- The collision lookup compares the plaintext candidate with the stored
  argon2 digests. A digest never has the key shape, so the lookup never finds
  a row and the first draw is always kept (`CollisionCheckNeverFires`). A
  failed lookup also keeps its candidate (`FailedQueryKeepsCandidate`). The
  model does not claim that stored digests or issued keys are unique.
- Any rejected insert whose text after the first `:` and then the first `.`
  is not `username` is reported as `EmailExists`. This includes
  `NOT NULL constraint failed: users.password` (`NotNullMessage`).
- A message with no `:` makes the closure panic, for example SQLite's
  `database is locked`. The response is then 500 with an empty body
  (`RegisterUnreadableRejection`).

## Model

| member | source | states |
|---|---|---|
| `ApiKeys.AlphabetChar` | src/database.rs:96 | every sample maps to an ASCII letter or digit |
| `ApiKeys.SampleOf` | src/database.rs:96 | every alphanumeric character is the image of some sample |
| `ApiKeys.SampleOfAlphabetChar` | src/database.rs:96 | distinct samples give distinct characters |
| `ApiKeys.Spell` | src/database.rs:95-97 | the string has one character per sample, and each is that sample's character, in draw order |
| `ApiKeys.Unspell` | src/database.rs:95-97 | every alphanumeric string is spelled by a sample sequence of the same length |
| `ApiKeys.KeyOf` | src/database.rs:95-97 | a candidate built from one draw has length 32 and only `[A-Za-z0-9]` characters |
| `ApiKeys.UnspellKeyOf` | src/database.rs:95-97 | the candidate determines its draw (Unspell inverts KeyOf) |
| `ApiKeys.KeyOfUnspell` | src/database.rs:95-97 | every 32-character alphanumeric string is the candidate of some draw |
| `ApiKeys.KeyOfInjective` | src/database.rs:95-97 | two draws give the same candidate if and only if they are equal |
| `UsersTable.First` | src/database.rs:99 | the query returns nothing exactly when no row has the value in the column; otherwise it returns the first such row in table order |
| `UsersTable.FirstAfterAppend` | src/database.rs:81-84 | right after a row is appended, reading by its column value always finds a row; it is the new row unless an older row already had that value |
| `UsersTable.Table.constructor` | src/database.rs:37-39 | the table starts with the given rows |
| `UsersTable.Table.Insert` | src/database.rs:66-68 | an accepted insert appends exactly the stored row; a rejected one leaves the rows unchanged and yields the engine's message |
| `DatabaseErrors.Display` | src/database.rs:20-34 | every error has a non-empty display text ending in a full stop |
| `DatabaseErrors.DisplayInjective` | src/database.rs:20-34 | two errors have the same display text if and only if they are the same error |
| `ConflictClassifier.SplitOnce` | src/database.rs:71-72 | no split exactly when the separator is absent; otherwise the input is `before + sep + after` with no separator in `before` |
| `ConflictClassifier.SplitOnceAt` | src/database.rs:71-72 | the split happens at the first separator: any input `before + sep + after` with no separator in `before` splits into exactly those parts |
| `ConflictClassifier.ClassifyConflict` | src/database.rs:69-79 | whenever the closure returns, it returns `UserameExists` or `EmailExists`, never another error |
| `ConflictClassifier.ClassifyField` | src/database.rs:71-78 | for a message `prefix:table.field`, the result is `UserameExists` exactly when `field` is `username`, and `EmailExists` for any other field |
| `ConflictClassifier.ClassifyWithoutColon` | src/database.rs:71 | a message without `:` panics |
| `ConflictClassifier.ClassifyWithoutDot` | src/database.rs:72 | a message whose text after the first `:` has no `.` panics |
| `ConflictClassifier.ClassifyPanicsIff` | src/database.rs:71-72 | the closure panics if and only if a separator is missing |
| `ConflictClassifier.UniqueUsernameMessage` | src/database.rs:74-75 | SQLite's `UNIQUE constraint failed: users.username` gives `UserameExists` |
| `ConflictClassifier.UniqueEmailMessage` | src/database.rs:76-78 | SQLite's `UNIQUE constraint failed: users.email` gives `EmailExists` |
| `ConflictClassifier.NotNullMessage` | src/database.rs:76-78 | a failure that is not a uniqueness conflict (`NOT NULL constraint failed: users.password`) is also reported as `EmailExists` |
| `ConflictClassifier.LockedMessage` | src/database.rs:71 | `database is locked` panics |
| `KeyGenerator.Lookup` | src/database.rs:99 | the query returns a row exactly when it does not fail and some row's `api_key` equals the candidate, and that row holds the candidate; it fails with the store's error exactly when the attempt's query fails |
| `KeyGenerator.Collides` | src/database.rs:99-102 | an attempt is retried exactly when its query does not fail and some row's `api_key` equals its candidate |
| `KeyGenerator.FirstFreeDraw` | src/database.rs:99-104 | the attempt the generator settles on is one whose query returns no row, and the query returned a row for every attempt before it |
| `KeyGenerator.FirstFreeUnique` | src/database.rs:99-104 | only one attempt can be the first one whose query returns no row |
| `KeyGenerator.CollisionCheckNeverFires` | src/database.rs:99-104 | when no stored `api_key` has the key shape, as with argon2 digests, the first draw is always kept |
| `KeyGenerator.FailedQueryKeepsCandidate` | src/database.rs:103 | when the first query fails, its candidate is kept whatever the rows hold |
| `KeyGenerator.GenerateApiKey` | src/database.rs:90-105 | the returned key has length 32 and only alphanumeric characters. The query for it returned no row; unless that query failed, no stored `api_key` equals it. It is the candidate of the first attempt whose query returned no row, and every earlier query returned a row and caused a fresh draw |
| `Database.HashApiKey` | src/database.rs:107-117 | hashing fails only with `HashError`, exactly when argon2 fails; otherwise it yields the digest of the key |
| `Database.KeptAttempt` | src/database.rs:56 | the query of the attempt `insert_user` keeps returned no row |
| `Database.GeneratedKey` | src/database.rs:56 | the key `insert_user` uses has the key shape and, unless its query failed, matched no stored `api_key` |
| `Database.Rejection` | src/database.rs:79 | the `?` propagates the classifier's panic as a panic and its answer as the error of `insert_user` |
| `Database.RowOf` | src/database.rs:59-64 | the inserted row carries the request's username, email and password unchanged and the digest as `api_key` |
| `Database.InsertUserRun` | src/database.rs:50-87 | a run consumes no draw exactly when it gets no connection; the table either stays as it was or, after an accepted insert, gains exactly one row at the end; a successful result implies that row was added |
| `Database.ConnectionFailureFirst` | src/database.rs:51-54 | without a connection the result is `ConnectionTimeout`, no draw is consumed and the table is unchanged |
| `Database.HashFailureBeforeInsert` | src/database.rs:57 | a failed hash gives `HashError` with the table unchanged, and the outcome does not depend on the insert verdict |
| `Database.RejectedInsertClassified` | src/database.rs:66-79 | a rejected insert leaves the table unchanged; the run panics exactly when the classifier does, and otherwise fails with `UserameExists` or `EmailExists` |
| `Database.AcceptedInsertSucceeds` | src/database.rs:56-86 | an accepted insert whose re-read query answers always returns `Ok`, and the table gains exactly one row. That row's `api_key` is the hash of the returned plaintext key, and its username, email and password are the request's unchanged. The returned key has the key shape and, unless its query failed, matched no stored `api_key`. The returned user is the new row unless an older row had the same username |
| `Database.AcceptedRereadFailurePanics` | src/database.rs:81-84 | an accepted insert whose re-read query fails panics at the `unwrap`, with the new row already stored |
| `Database.Database.constructor` | src/database.rs:37-39 | the handle wraps the given table |
| `Database.Database.InsertUser` | src/database.rs:50-87 | the result, the new rows and the attempts consumed are those of `InsertUserRun` on the old rows |
| `UserRoutes.Block` | src/user.rs:10 | the outer result is an error exactly when the blocking task panicked; otherwise it is the task's value |
| `UserRoutes.Register` | src/user.rs:12-29 | the status is 201 exactly on a successful insert, 409 exactly on a username or email conflict, and 500 otherwise; only a 201 carries a JSON body |
| `UserRoutes.CreatedCarriesPublicFieldsOnly` | src/user.rs:14-17 | success gives 201 with a body of exactly the request's username and email; the response is the same whatever the returned row and key and whatever the request's password |
| `UserRoutes.UsernameConflictResponse` | src/user.rs:19-20 | `UserameExists` gives 409 with `This username exists: ` followed by the username |
| `UserRoutes.EmailConflictResponse` | src/user.rs:21-23 | `EmailExists` gives 409 with `This email exists: ` followed by the email |
| `UserRoutes.OtherErrorResponse` | src/user.rs:24 | any other error gives 500 with its display text; different errors give different responses |
| `UserRoutes.BlockingFailureResponse` | src/user.rs:29 | a failed blocking task gives 500 with an empty body |
| `UserRoutes.ConflictBodiesDistinct` | src/user.rs:19-23 | a username conflict and an email conflict never give the same response |
| `UserRoutes.RegisterWithoutConnection` | src/user.rs:10-24 | no connection gives 500 `Connection timeout.` |
| `UserRoutes.RegisterHashFailure` | src/user.rs:10-24 | a hashing failure gives 500 `Unable to hash api key.` |
| `UserRoutes.RegisterResponse` | src/user.rs:10-29 | end to end, a 201 needs a connection and an accepted insert, and a 409 needs a connection and a rejected insert |
| `UserRoutes.RegisterCreatedIff` | src/user.rs:10-17 | 201 is answered exactly when there is a connection, the key hashes, the insert is accepted and the re-read query answers |
| `UserRoutes.RegisterAccepted` | src/user.rs:10-17 | an accepted insert whose re-read answers gives 201 with the request's username and email |
| `UserRoutes.RegisterRereadFailure` | src/user.rs:10-29 | an accepted insert whose re-read query fails gives 500 with an empty body |
| `UserRoutes.RegisterRejected` | src/user.rs:10-23 | a rejection `prefix:table.field` gives 409 naming the username when the field is `username`, and 409 naming the email for any other field |
| `UserRoutes.RegisterUnreadableRejection` | src/user.rs:10-29 | a rejection message without `:` gives 500 with an empty body |
| `UserRoutes.RegisterHandler` | src/user.rs:7-30 | the response is `Register` applied to the blocking result of `insert_user`, and the table ends as that run leaves it |

## Left out

- `KeyGenerator.GenerateApiKey`: the source redraws without bound. The model
  takes the random generator and the store's query failures as a finite
  sequence of attempts. Its requires admits only sequences holding an attempt
  whose query returns no row. A run that redraws forever is not modelled.
- `Database.Database.InsertUser`: carries the same requires through
  `Terminates`, for the same reason.
- The probability distribution of the draws and the properties of the
  generator. Each draw is an arbitrary sequence of 32 samples, and whether a
  query fails is an arbitrary boolean per attempt.
- Argon2 hashing and salt generation. The hasher is a function parameter that
  may fail, and the salt is a parameter.
- The database engine's uniqueness enforcement and its error text. The insert
  verdict is an input. The re-read after an accepted insert either fails
  (an input, and then the `unwrap` panics) or answers as the first-row query
  over the rows. Which store errors occur, and their text, is not modelled.
- `Database::new` (environment variable, pool construction) and the `NoUrl`
  and `PoolMinumumConnection` paths. Pool construction is configuration I/O.
  `Register` still maps those errors, as the source's catch-all arm does.
- Pool checkout timing. `ConnectionTimeout` is a boolean input.
- `web::block`'s thread pool and actix's worker concurrency. A cancelled task
  is modelled only as the result of a panic.
- JSON deserialisation of the request and serialisation of the response
  body. The body is a datatype.
- `src/main.rs` (file serving, echo) and `src/lib.rs` (server bootstrap).
  They are I/O plumbing.
- `src/models.rs`. It is out of date with `src/database.rs`, so the field
  names follow `src/database.rs`.
