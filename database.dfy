/**
 * `Database::insert_user`: take a pooled connection, generate an API key,
 * hash it, insert the new row with the digest in its `api_key` column,
 * re-read the row by username and return it with the plaintext key.  Each
 * step has its own early exit.  What lies outside the core is an input
 * (an Environment): whether the pool yields a connection, the random draws
 * and whether each `api_key` query fails, the salt `OsRng` produces, the
 * argon2 hasher, what the database engine decides about the insert, and
 * whether the re-read query fails.  The password is stored as it arrives.
 */
module Database {
  import opened Wrappers
  import opened ApiKeys
  import opened UsersTable
  import opened DatabaseErrors
  import opened ConflictClassifier
  import opened KeyGenerator

  /** `argon2.hash_password(key, salt)`, with `None` for its error. */
  type Hasher = (string, string) -> Option<string>

  /** Everything `insert_user` consults that lies outside the core. */
  datatype Environment = Environment(
    connected: bool,
    attempts: seq<Attempt>,
    salt: string,
    hash: Hasher,
    verdict: InsertVerdict,
    rereadFails: bool)

  /** The result `insert_user` gives, or its panic. */
  type InsertResult = Outcome<Result<(User, string), DatabaseError>>

  /** One run of `insert_user`: its result, the table's rows after it, and how many attempts it consumed. */
  datatype InsertRun = InsertRun(outcome: InsertResult, rows: seq<User>, attemptsUsed: nat)

  /** The runs the model covers: when a connection is obtained, some attempt's query returns no row. */
  predicate Terminates(rows: seq<User>, env: Environment) {
    env.connected ==> FreeDrawExists(rows, env.attempts)
  }

  /** `hash_api_key(key)` with the salt it draws. */
  function HashApiKey(hash: Hasher, key: string, salt: string): (r: Result<string, DatabaseError>)
    ensures r.Err? <==> hash(key, salt).None?
    ensures r.Err? ==> r.error == HashError
    ensures r.Ok? ==> r.value == hash(key, salt).value
  {
    match hash(key, salt)
    case None => Err(HashError)
    case Some(digest) => Ok(digest)
  }

  /** The `?` on the classifier's answer: a conflict error, or the panic it raised. */
  function Rejection(classified: Outcome<DatabaseError>): (r: InsertResult)
    ensures r.Panicked? <==> classified.Panicked?
    ensures r.Returned? ==> r.value == Err(classified.value)
  {
    match classified
    case Panicked => Panicked
    case Returned(e) => Returned(Err(e))
  }

  /** The attempt `generate_api_key` settles on in a connected run. */
  function KeptAttempt(rows: seq<User>, env: Environment): (a: Attempt)
    requires env.connected && FreeDrawExists(rows, env.attempts)
    ensures Lookup(rows, a).Err?
  {
    env.attempts[FirstFreeDraw(rows, env.attempts)]
  }

  /**
   * The plaintext key `insert_user` generates in a connected run: it has the
   * key shape, and it matches no stored `api_key` unless its query failed.
   */
  function GeneratedKey(rows: seq<User>, env: Environment): (key: string)
    requires env.connected && FreeDrawExists(rows, env.attempts)
    ensures IsApiKey(key)
    ensures !KeptAttempt(rows, env).queryFails ==> First(rows, ApiKey, key) == None
  {
    KeyOf(KeptAttempt(rows, env).draw)
  }

  /** The row `insert_user` builds from the request and the key's digest. */
  function RowOf(newUser: NewUser, digest: string): (row: NewUserWithApiKey)
    ensures row.username == newUser.username && row.email == newUser.email
    ensures row.password == newUser.password && row.apiKey == digest
  {
    NewUserWithApiKey(newUser.username, newUser.email, newUser.password, digest)
  }

  /** What one run of `insert_user` does, step by step. */
  function InsertUserRun(rows: seq<User>, newUser: NewUser, env: Environment): (run: InsertRun)
    requires Terminates(rows, env)
    ensures run.attemptsUsed == 0 <==> !env.connected
    ensures run.rows == rows
            || (env.connected && env.verdict.Accepted?
                && |run.rows| == |rows| + 1 && run.rows[..|rows|] == rows)
    ensures run.outcome.Returned? && run.outcome.value.Ok?
            ==> env.connected && env.verdict.Accepted? && |run.rows| == |rows| + 1
  {
    if !env.connected then InsertRun(Returned(Err(ConnectionTimeout)), rows, 0)
    else
      var used := FirstFreeDraw(rows, env.attempts) + 1;
      var key := GeneratedKey(rows, env);
      match HashApiKey(env.hash, key, env.salt)
      case Err(e) => InsertRun(Returned(Err(e)), rows, used)
      case Ok(digest) =>
        match env.verdict
        case Rejected(message) => InsertRun(Rejection(ClassifyConflict(message)), rows, used)
        case Accepted(id) =>
          var after := rows + [Stored(id, RowOf(newUser, digest))];
          if env.rereadFails then InsertRun(Panicked, after, used)
          else
          match First(after, Username, newUser.username)
          case None => InsertRun(Panicked, after, used)
          case Some(user) => InsertRun(Returned(Ok((user, key))), after, used)
  }

  /** Without a connection the run ends with `ConnectionTimeout`, before any draw and with the table untouched. */
  lemma ConnectionFailureFirst(rows: seq<User>, newUser: NewUser, env: Environment)
    requires !env.connected
    ensures InsertUserRun(rows, newUser, env) == InsertRun(Returned(Err(ConnectionTimeout)), rows, 0)
  {
  }

  /**
   * When hashing the generated key fails the run ends with `HashError` and
   * the table untouched, whatever the database would have decided: the
   * insert is never attempted.
   */
  lemma HashFailureBeforeInsert(rows: seq<User>, newUser: NewUser, env: Environment, other: InsertVerdict)
    requires env.connected && FreeDrawExists(rows, env.attempts)
    requires env.hash(GeneratedKey(rows, env), env.salt).None?
    ensures InsertUserRun(rows, newUser, env).outcome == Returned(Err(HashError))
    ensures InsertUserRun(rows, newUser, env).rows == rows
    ensures InsertUserRun(rows, newUser, env) == InsertUserRun(rows, newUser, env.(verdict := other))
  {
  }

  /** A rejected insert leaves the table as it was and reports what the classifier makes of the message. */
  lemma RejectedInsertClassified(rows: seq<User>, newUser: NewUser, env: Environment)
    requires env.connected && FreeDrawExists(rows, env.attempts)
    requires env.hash(GeneratedKey(rows, env), env.salt).Some?
    requires env.verdict.Rejected?
    ensures InsertUserRun(rows, newUser, env).rows == rows
    ensures InsertUserRun(rows, newUser, env).outcome.Panicked?
            <==> ClassifyConflict(env.verdict.message).Panicked?
    ensures InsertUserRun(rows, newUser, env).outcome.Returned?
            ==> InsertUserRun(rows, newUser, env).outcome.value
                in {Err(UserameExists), Err(EmailExists)}
  {
  }

  /**
   * An accepted insert whose re-read query answers always succeeds (the
   * `unwrap` on the re-read cannot panic): the table gains exactly one row,
   * whose `api_key` is the digest of the returned plaintext key and whose
   * other fields are the request's.  The returned key has the key shape and,
   * unless its query failed, matched no stored `api_key`.  When no older
   * row had the username, the returned user is the new row.
   */
  lemma {:induction false} AcceptedInsertSucceeds(rows: seq<User>, newUser: NewUser, env: Environment)
    requires env.connected && FreeDrawExists(rows, env.attempts)
    requires env.hash(GeneratedKey(rows, env), env.salt).Some?
    requires env.verdict.Accepted? && !env.rereadFails
    ensures var run := InsertUserRun(rows, newUser, env);
            var key := GeneratedKey(rows, env);
            var stored := Stored(env.verdict.id, RowOf(newUser, env.hash(key, env.salt).value));
            && run.rows == rows + [stored]
            && run.outcome.Returned? && run.outcome.value.Ok?
            && run.outcome.value.value.1 == key
            && IsApiKey(key)
            && (!KeptAttempt(rows, env).queryFails ==> First(rows, ApiKey, key) == None)
            && stored.apiKey == env.hash(key, env.salt).value
            && stored.username == newUser.username && stored.email == newUser.email
            && stored.password == newUser.password
            && run.outcome.value.value.0.username == newUser.username
            && (Absent(rows, Username, newUser.username) ==> run.outcome.value.value.0 == stored)
  {
    var key := GeneratedKey(rows, env);
    var stored := Stored(env.verdict.id, RowOf(newUser, env.hash(key, env.salt).value));
    FirstAfterAppend(rows, stored, Username);
  }

  /**
   * An accepted insert whose re-read query fails panics at the `unwrap`,
   * after the row was stored.
   */
  lemma AcceptedRereadFailurePanics(rows: seq<User>, newUser: NewUser, env: Environment)
    requires env.connected && FreeDrawExists(rows, env.attempts)
    requires env.hash(GeneratedKey(rows, env), env.salt).Some?
    requires env.verdict.Accepted? && env.rereadFails
    ensures InsertUserRun(rows, newUser, env).outcome == Panicked
    ensures InsertUserRun(rows, newUser, env).rows
            == rows + [Stored(env.verdict.id, RowOf(newUser, env.hash(GeneratedKey(rows, env), env.salt).value))]
  {
  }

  /** The connection pool in front of the `users` table. */
  class Database {
    const table: Table

    constructor (table: Table)
      ensures this.table == table
    {
      this.table := table;
    }

    /** `insert_user(new_user)`: the result, and how many attempts the key generator consumed. */
    method InsertUser(newUser: NewUser, env: Environment) returns (r: InsertResult, attemptsUsed: nat)
      requires Terminates(table.rows, env)
      modifies table
      ensures InsertRun(r, table.rows, attemptsUsed) == InsertUserRun(old(table.rows), newUser, env)
    {
      if !env.connected {
        return Returned(Err(ConnectionTimeout)), 0;
      }
      var key, rejected := GenerateApiKey(table, env.attempts);
      FirstFreeUnique(table.rows, env.attempts, rejected, FirstFreeDraw(table.rows, env.attempts));
      attemptsUsed := rejected + 1;
      var hashed := HashApiKey(env.hash, key, env.salt);
      if hashed.Err? {
        return Returned(Err(hashed.error)), attemptsUsed;
      }
      var row := RowOf(newUser, hashed.value);
      var inserted := table.Insert(row, env.verdict);
      if inserted.Err? {
        return Rejection(ClassifyConflict(inserted.error)), attemptsUsed;
      }
      if env.rereadFails {
        return Panicked, attemptsUsed;
      }
      var user := First(table.rows, Username, row.username);
      if user.None? {
        return Panicked, attemptsUsed;
      }
      r := Returned(Ok((user.value, key)));
    }
  }
}
