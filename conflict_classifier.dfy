/**
 * The closure `insert_user` hands to `map_err` when the insert fails: it
 * reads the conflicting column out of the database's error text.  It keeps
 * what follows the first `:`, then what follows the first `.` of that, and
 * answers `UserameExists` when this is exactly `username` and `EmailExists`
 * for anything else.  Both `split_once` calls are `unwrap`ped, so a message
 * without a `:`, or without a `.` after it, panics.
 */
module ConflictClassifier {
  import opened Wrappers
  import opened DatabaseErrors

  /** `s.split_once(sep)`: the text before and after the first `sep`. */
  function SplitOnce(s: string, sep: char): (r: Option<(string, string)>)
    ensures r.None? <==> sep !in s
    ensures r.Some? ==> s == r.value.0 + [sep] + r.value.1 && sep !in r.value.0
  {
    if s == [] then None
    else if s[0] == sep then Some(([], s[1..]))
    else
      match SplitOnce(s[1..], sep)
      case None => None
      case Some((before, after)) =>
        assert s == [s[0]] + s[1..];
        Some(([s[0]] + before, after))
  }

  /** The split is at the first separator: any other reading of `s` around a separator-free prefix is this one. */
  lemma {:induction false} SplitOnceAt(before: string, sep: char, after: string)
    requires sep !in before
    ensures SplitOnce(before + [sep] + after, sep) == Some((before, after))
  {
    if before != [] {
      assert (before + [sep] + after)[1..] == before[1..] + [sep] + after;
      SplitOnceAt(before[1..], sep, after);
      assert [before[0]] + before[1..] == before;
    }
  }

  /** The `map_err` closure of `insert_user`. */
  function ClassifyConflict(message: string): (r: Outcome<DatabaseError>)
    ensures r.Returned? ==> r.value == UserameExists || r.value == EmailExists
  {
    match SplitOnce(message, ':')
    case None => Panicked
    case Some((_, fieldPart)) =>
      match SplitOnce(fieldPart, '.')
      case None => Panicked
      case Some((_, field)) =>
        Returned(if field == "username" then UserameExists else EmailExists)
  }

  /**
   * A message `prefix:table.field` names `field`: `username` gives
   * `UserameExists` and every other field, `email` or not, gives
   * `EmailExists`.  The field may itself hold further `:` and `.`.
   */
  lemma ClassifyField(prefix: string, table: string, field: string)
    requires ':' !in prefix && '.' !in table
    ensures ClassifyConflict(prefix + [':'] + table + ['.'] + field)
            == Returned(if field == "username" then UserameExists else EmailExists)
  {
    var message := prefix + [':'] + table + ['.'] + field;
    assert message == prefix + [':'] + (table + ['.'] + field);
    SplitOnceAt(prefix, ':', table + ['.'] + field);
    SplitOnceAt(table, '.', field);
  }

  /** A message without `:` panics at the first `unwrap`. */
  lemma ClassifyWithoutColon(message: string)
    requires ':' !in message
    ensures ClassifyConflict(message) == Panicked
  {
  }

  /** A message whose text after the first `:` has no `.` panics at the second `unwrap`. */
  lemma ClassifyWithoutDot(prefix: string, rest: string)
    requires ':' !in prefix && '.' !in rest
    ensures ClassifyConflict(prefix + [':'] + rest) == Panicked
  {
    SplitOnceAt(prefix, ':', rest);
  }

  /** Every message is one of the three shapes above: the classifier panics exactly when a separator is missing. */
  lemma ClassifyPanicsIff(message: string)
    ensures ClassifyConflict(message) == Panicked
            <==> (':' !in message || '.' !in SplitOnce(message, ':').value.1)
  {
  }

  /** SQLite's unique-constraint failure on `users.username`. */
  lemma UniqueUsernameMessage(message: string)
    requires message == "UNIQUE constraint failed: users.username"
    ensures ClassifyConflict(message) == Returned(UserameExists)
  {
    assert message == "UNIQUE constraint failed" + [':'] + " users" + ['.'] + "username";
    ClassifyField("UNIQUE constraint failed", " users", "username");
  }

  /** SQLite's unique-constraint failure on `users.email`. */
  lemma UniqueEmailMessage(message: string)
    requires message == "UNIQUE constraint failed: users.email"
    ensures ClassifyConflict(message) == Returned(EmailExists)
  {
    assert message == "UNIQUE constraint failed" + [':'] + " users" + ['.'] + "email";
    ClassifyField("UNIQUE constraint failed", " users", "email");
  }

  /** A failure that is no uniqueness conflict at all is still reported as `EmailExists`. */
  lemma NotNullMessage(message: string)
    requires message == "NOT NULL constraint failed: users.password"
    ensures ClassifyConflict(message) == Returned(EmailExists)
  {
    assert message == "NOT NULL constraint failed" + [':'] + " users" + ['.'] + "password";
    ClassifyField("NOT NULL constraint failed", " users", "password");
  }

  /** A message with no `:` at all, such as SQLite's busy error, panics. */
  lemma LockedMessage()
    ensures ClassifyConflict("database is locked") == Panicked
  {
    ClassifyWithoutColon("database is locked");
  }
}
