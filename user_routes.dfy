/**
 * The `POST /user/register` handler: it runs `insert_user` on the blocking
 * pool and maps the nested result to a status code and a body.  A panic in
 * the blocking task comes back as the outer `Err` (a BlockingError).
 */
module UserRoutes {
  import opened Wrappers
  import opened UsersTable
  import opened DatabaseErrors
  import opened ConflictClassifier
  import opened KeyGenerator
  import opened Database

  const Created: nat := 201
  const Conflict: nat := 409
  const InternalServerError: nat := 500

  /** A response body: JSON of the public user fields, plain text, or nothing. */
  datatype Body = Json(user: UserWithoutPassword) | Text(text: string) | Empty

  datatype Response = Response(status: nat, body: Body)

  /** The error `web::block` reports when its task did not complete. */
  datatype BlockingError = Canceled

  /** `web::block(f).await`: the task's value, or the error a panic turns into. */
  function Block<T>(o: Outcome<T>): (r: Result<T, BlockingError>)
    ensures r.Err? <==> o.Panicked?
    ensures r.Ok? ==> r.value == o.value
  {
    match o
    case Panicked => Err(Canceled)
    case Returned(v) => Ok(v)
  }

  /** The inner `insert_user` failed with a uniqueness conflict. */
  predicate IsConflict(result: Result<Result<(User, string), DatabaseError>, BlockingError>) {
    result.Ok? && result.value.Err? && result.value.error in {UserameExists, EmailExists}
  }

  /** The `match` of `register` on the blocking result. */
  function Register(newUser: NewUser, result: Result<Result<(User, string), DatabaseError>, BlockingError>)
    : (resp: Response)
    ensures resp.status == Created <==> result.Ok? && result.value.Ok?
    ensures resp.status == Conflict <==> IsConflict(result)
    ensures resp.status in {Created, Conflict, InternalServerError}
    ensures resp.body.Json? <==> resp.status == Created
  {
    match result
    case Err(_) => Response(InternalServerError, Empty)
    case Ok(Ok(_)) => Response(Created, Json(UserWithoutPassword(newUser.username, newUser.email)))
    case Ok(Err(e)) =>
      match e
      case UserameExists => Response(Conflict, Text("This username exists: " + newUser.username))
      case EmailExists => Response(Conflict, Text("This email exists: " + newUser.email))
      case _ => Response(InternalServerError, Text(Display(e)))
  }

  /**
   * A successful insert answers 201 with exactly the request's username and
   * email: neither the password nor the returned plaintext key nor the stored
   * row can be seen in the response.
   */
  lemma CreatedCarriesPublicFieldsOnly(newUser: NewUser, a: (User, string), b: (User, string), password: string)
    ensures Register(newUser, Ok(Ok(a))) == Response(Created, Json(UserWithoutPassword(newUser.username, newUser.email)))
    ensures Register(newUser, Ok(Ok(a))) == Register(newUser.(password := password), Ok(Ok(b)))
  {
  }

  /** A username conflict answers 409 naming the requested username. */
  lemma UsernameConflictResponse(newUser: NewUser)
    ensures Register(newUser, Ok(Err(UserameExists)))
            == Response(Conflict, Text("This username exists: " + newUser.username))
  {
  }

  /** An email conflict answers 409 naming the requested email. */
  lemma EmailConflictResponse(newUser: NewUser)
    ensures Register(newUser, Ok(Err(EmailExists)))
            == Response(Conflict, Text("This email exists: " + newUser.email))
  {
  }

  /** Any other database error answers 500 with its display text, which tells the error apart. */
  lemma OtherErrorResponse(newUser: NewUser, e: DatabaseError, e': DatabaseError)
    requires e !in {UserameExists, EmailExists} && e' !in {UserameExists, EmailExists}
    ensures Register(newUser, Ok(Err(e))) == Response(InternalServerError, Text(Display(e)))
    ensures Register(newUser, Ok(Err(e))) == Register(newUser, Ok(Err(e'))) <==> e == e'
  {
    DisplayInjective(e, e');
  }

  /** A failed blocking task answers 500 with an empty body. */
  lemma BlockingFailureResponse(newUser: NewUser)
    ensures Register(newUser, Err(Canceled)) == Response(InternalServerError, Empty)
  {
  }

  /** The two conflict bodies are distinguishable whatever the username and email. */
  lemma ConflictBodiesDistinct(newUser: NewUser, other: NewUser)
    ensures Register(newUser, Ok(Err(UserameExists))) != Register(other, Ok(Err(EmailExists)))
  {
    var u := "This username exists: " + newUser.username;
    var m := "This email exists: " + other.email;
    assert u[5] == 'u' && m[5] == 'e';
  }

  /**
   * `register` end to end, on the table's rows before the request: the
   * response to the run of `insert_user` that `web::block` carries out.
   */
  function RegisterResponse(rows: seq<User>, newUser: NewUser, env: Environment): (resp: Response)
    requires Terminates(rows, env)
    ensures resp.status == Created ==> env.connected && env.verdict.Accepted?
    ensures resp.status == Conflict ==> env.connected && env.verdict.Rejected?
  {
    Register(newUser, Block(InsertUserRun(rows, newUser, env).outcome))
  }

  /** No connection: 500 with the text "Connection timeout.". */
  lemma RegisterWithoutConnection(rows: seq<User>, newUser: NewUser, env: Environment)
    requires !env.connected
    ensures RegisterResponse(rows, newUser, env) == Response(InternalServerError, Text("Connection timeout."))
  {
  }

  /** Hashing fails: 500 with the text "Unable to hash api key.". */
  lemma RegisterHashFailure(rows: seq<User>, newUser: NewUser, env: Environment)
    requires env.connected && FreeDrawExists(rows, env.attempts)
    requires env.hash(GeneratedKey(rows, env), env.salt).None?
    ensures RegisterResponse(rows, newUser, env) == Response(InternalServerError, Text("Unable to hash api key."))
  {
  }

  /** The insert is accepted: 201 with the request's username and email. */
  lemma RegisterAccepted(rows: seq<User>, newUser: NewUser, env: Environment)
    requires env.connected && FreeDrawExists(rows, env.attempts)
    requires env.hash(GeneratedKey(rows, env), env.salt).Some?
    requires env.verdict.Accepted? && !env.rereadFails
    ensures RegisterResponse(rows, newUser, env)
            == Response(Created, Json(UserWithoutPassword(newUser.username, newUser.email)))
  {
    AcceptedInsertSucceeds(rows, newUser, env);
  }

  /** The insert is accepted but the re-read query fails: the panic answers 500 with an empty body, though the row is stored. */
  lemma RegisterRereadFailure(rows: seq<User>, newUser: NewUser, env: Environment)
    requires env.connected && FreeDrawExists(rows, env.attempts)
    requires env.hash(GeneratedKey(rows, env), env.salt).Some?
    requires env.verdict.Accepted? && env.rereadFails
    ensures RegisterResponse(rows, newUser, env) == Response(InternalServerError, Empty)
  {
    AcceptedRereadFailurePanics(rows, newUser, env);
  }

  /**
   * The database rejects the insert with a message `prefix:table.field`:
   * 409 naming the username when the field is `username`, and 409 naming
   * the email for every other field.
   */
  lemma RegisterRejected(rows: seq<User>, newUser: NewUser, env: Environment,
                         prefix: string, table: string, field: string)
    requires env.connected && FreeDrawExists(rows, env.attempts)
    requires env.hash(GeneratedKey(rows, env), env.salt).Some?
    requires ':' !in prefix && '.' !in table
    requires env.verdict == Rejected(prefix + [':'] + table + ['.'] + field)
    ensures RegisterResponse(rows, newUser, env)
            == if field == "username" then Response(Conflict, Text("This username exists: " + newUser.username))
               else Response(Conflict, Text("This email exists: " + newUser.email))
  {
    ClassifyField(prefix, table, field);
  }

  /**
   * 201 is answered exactly when a connection is obtained, the generated key
   * hashes, the database accepts the insert and the re-read query answers.
   */
  lemma RegisterCreatedIff(rows: seq<User>, newUser: NewUser, env: Environment)
    requires Terminates(rows, env)
    ensures RegisterResponse(rows, newUser, env).status == Created
            <==> env.connected && env.hash(GeneratedKey(rows, env), env.salt).Some?
                 && env.verdict.Accepted? && !env.rereadFails
  {
    if env.connected && env.hash(GeneratedKey(rows, env), env.salt).Some?
       && env.verdict.Accepted? && !env.rereadFails {
      AcceptedInsertSucceeds(rows, newUser, env);
    }
  }

  /** The database rejects the insert with a message the classifier cannot split: 500 with an empty body. */
  lemma RegisterUnreadableRejection(rows: seq<User>, newUser: NewUser, env: Environment)
    requires env.connected && FreeDrawExists(rows, env.attempts)
    requires env.hash(GeneratedKey(rows, env), env.salt).Some?
    requires env.verdict.Rejected? && ':' !in env.verdict.message
    ensures RegisterResponse(rows, newUser, env) == Response(InternalServerError, Empty)
  {
    ClassifyWithoutColon(env.verdict.message);
  }

  /** `register(database, new_user)` */
  method RegisterHandler(database: Database, newUser: NewUser, env: Environment) returns (resp: Response)
    requires Terminates(database.table.rows, env)
    modifies database.table
    ensures resp == RegisterResponse(old(database.table.rows), newUser, env)
    ensures database.table.rows == InsertUserRun(old(database.table.rows), newUser, env).rows
  {
    var user, _ := database.InsertUser(newUser, env);
    resp := Register(newUser, Block(user));
  }
}
