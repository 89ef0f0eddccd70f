/**
 * The `users` table as the registration core sees it.  The table's own
 * constraints live in the database engine: whether an insert is accepted,
 * the id it assigns and the error text it reports are inputs here
 * (an InsertVerdict).  A query `filter(column.eq(v)).first()` yields the
 * first row, in table order, whose column equals `v`.
 */
module UsersTable {
  import opened Wrappers

  /** A request body for registration. */
  datatype NewUser = NewUser(username: string, email: string, password: string)

  /** The public part of a user that the registration response carries. */
  datatype UserWithoutPassword = UserWithoutPassword(username: string, email: string)

  /** The row `insert_user` asks the table to insert. */
  datatype NewUserWithApiKey = NewUserWithApiKey(username: string, email: string, password: string, apiKey: string)

  /** A stored row of `users`. */
  datatype User = User(id: int, username: string, email: string, password: string, apiKey: string)

  /** What the database engine decides about one insert. */
  datatype InsertVerdict = Accepted(id: int) | Rejected(message: string)

  /** The columns the core filters on. */
  datatype Column = Username | ApiKey

  function Get(u: User, column: Column): string {
    match column
    case Username => u.username
    case ApiKey => u.apiKey
  }

  /** The row the table holds once it accepts `row` under `id`. */
  function Stored(id: int, row: NewUserWithApiKey): User {
    User(id, row.username, row.email, row.password, row.apiKey)
  }

  /** No row has `value` in `column`. */
  predicate Absent(rows: seq<User>, column: Column, value: string) {
    forall i :: 0 <= i < |rows| ==> Get(rows[i], column) != value
  }

  /** `users.filter(column.eq(value)).first()`: the first matching row in table order. */
  function First(rows: seq<User>, column: Column, value: string): (r: Option<User>)
    ensures r.None? <==> Absent(rows, column, value)
    ensures r.Some? ==> exists i :: 0 <= i < |rows| && rows[i] == r.value && Get(r.value, column) == value
                                    && Absent(rows[..i], column, value)
  {
    if rows == [] then None
    else if Get(rows[0], column) == value then
      assert rows[..0] == [];
      Some(rows[0])
    else
      var r := First(rows[1..], column, value);
      if r.Some? then
        var i :| 0 <= i < |rows[1..]| && rows[1..][i] == r.value && Get(r.value, column) == value
                 && Absent(rows[1..][..i], column, value);
        assert rows[..i + 1] == [rows[0]] + rows[1..][..i];
        r
      else r
  }

  /**
   * Reading by a column right after a row was appended finds the new row,
   * unless an older row already had that value.
   */
  lemma {:induction false} FirstAfterAppend(rows: seq<User>, u: User, column: Column)
    ensures First(rows + [u], column, Get(u, column)).Some?
    ensures Absent(rows, column, Get(u, column)) ==> First(rows + [u], column, Get(u, column)) == Some(u)
    ensures !Absent(rows, column, Get(u, column))
            ==> First(rows + [u], column, Get(u, column)) == First(rows, column, Get(u, column))
  {
    if rows != [] {
      assert (rows + [u])[1..] == rows[1..] + [u];
      FirstAfterAppend(rows[1..], u, column);
    }
  }

  /** The table behind the connection pool; its rows change only by accepted inserts. */
  class Table {
    var rows: seq<User>

    constructor (initial: seq<User>)
      ensures rows == initial
    {
      rows := initial;
    }

    /** `diesel::insert_into(users).values(row).execute(connection)` */
    method Insert(row: NewUserWithApiKey, verdict: InsertVerdict) returns (r: Result<(), string>)
      modifies this
      ensures verdict.Accepted? ==> r == Ok(()) && rows == old(rows) + [Stored(verdict.id, row)]
      ensures verdict.Rejected? ==> r == Err(verdict.message) && rows == old(rows)
    {
      match verdict
      case Accepted(id) =>
        rows := rows + [Stored(id, row)];
        r := Ok(());
      case Rejected(message) =>
        r := Err(message);
    }
  }
}
