/**
 * `generate_api_key`: draw a 32-character alphanumeric candidate, ask the
 * table for the first row whose `api_key` column equals it, and draw again
 * when that query returns a row.  Any error of the query, `NotFound` or a
 * failure of the store itself, ends the retrying and keeps the candidate.
 * The random generator and the store's failures are the sequence of
 * attempts they would produce; the source retries without bound, so a run
 * is modelled for a sequence that does hold an attempt whose query returns
 * no row.  The `api_key` column holds argon2 digests, not plaintext keys,
 * and the query compares the plaintext candidate with them as they are.
 */
module KeyGenerator {
  import opened Wrappers
  import opened ApiKeys
  import opened UsersTable

  /**
   * One round of `generate_api_key`: the 32 samples drawn, and whether the
   * store query for their candidate fails (a locked database, say) instead
   * of answering from the rows.
   */
  datatype Attempt = Attempt(draw: Draw, queryFails: bool)

  /** The error side of `first::<User>`. */
  datatype LookupError = NotFound | QueryFailed

  /** `users.filter(api_key.eq(&key)).first::<User>(connection)` for the attempt's candidate. */
  function Lookup(rows: seq<User>, a: Attempt): (r: Result<User, LookupError>)
    ensures r.Ok? <==> !a.queryFails && !Absent(rows, ApiKey, KeyOf(a.draw))
    ensures r.Ok? ==> r.value.apiKey == KeyOf(a.draw)
    ensures r == Err(QueryFailed) <==> a.queryFails
  {
    if a.queryFails then Err(QueryFailed)
    else
      match First(rows, ApiKey, KeyOf(a.draw))
      case None => Err(NotFound)
      case Some(u) => Ok(u)
  }

  /** The query for the attempt's candidate returns a row, so a fresh draw follows. */
  predicate Collides(rows: seq<User>, a: Attempt)
    ensures Collides(rows, a) <==> !a.queryFails && !Absent(rows, ApiKey, KeyOf(a.draw))
  {
    Lookup(rows, a).Ok?
  }

  /** Some attempt's query returns no row, so the retrying ends. */
  predicate FreeDrawExists(rows: seq<User>, attempts: seq<Attempt>) {
    exists i :: 0 <= i < |attempts| && !Collides(rows, attempts[i])
  }

  /** Attempt `used` is the first one whose query returns no row. */
  predicate IsFirstFree(rows: seq<User>, attempts: seq<Attempt>, used: nat) {
    used < |attempts| && !Collides(rows, attempts[used])
    && forall j :: 0 <= j < used ==> Collides(rows, attempts[j])
  }

  /** The index of the attempt `generate_api_key` settles on. */
  function FirstFreeDraw(rows: seq<User>, attempts: seq<Attempt>): (used: nat)
    requires FreeDrawExists(rows, attempts)
    ensures IsFirstFree(rows, attempts, used)
  {
    if !Collides(rows, attempts[0]) then 0
    else
      RetryOnTail(rows, attempts);
      var rest := FirstFreeDraw(rows, attempts[1..]);
      FirstFreeShift(rows, attempts, rest);
      rest + 1
  }

  /** After a rejected first attempt, the rest of the sequence still holds a free one. */
  lemma RetryOnTail(rows: seq<User>, attempts: seq<Attempt>)
    requires FreeDrawExists(rows, attempts) && Collides(rows, attempts[0])
    ensures FreeDrawExists(rows, attempts[1..])
  {
    var i :| 0 <= i < |attempts| && !Collides(rows, attempts[i]);
    assert attempts[1..][i - 1] == attempts[i];
  }

  /** The first free attempt of the rest, shifted by the rejected first attempt. */
  lemma FirstFreeShift(rows: seq<User>, attempts: seq<Attempt>, rest: nat)
    requires |attempts| > 0 && Collides(rows, attempts[0])
    requires IsFirstFree(rows, attempts[1..], rest)
    ensures IsFirstFree(rows, attempts, rest + 1)
  {
    forall j | 0 <= j < rest + 1
      ensures Collides(rows, attempts[j])
    {
      if j > 0 {
        assert attempts[j] == attempts[1..][j - 1];
      }
    }
    assert attempts[rest + 1] == attempts[1..][rest];
  }

  /** At most one attempt is the first free one. */
  lemma FirstFreeUnique(rows: seq<User>, attempts: seq<Attempt>, u: nat, v: nat)
    requires IsFirstFree(rows, attempts, u) && IsFirstFree(rows, attempts, v)
    ensures u == v
  {
  }

  lemma RejectedBeforeAccepted(rows: seq<User>, attempts: seq<Attempt>, used: nat, accepted: nat)
    requires IsFirstFree(rows, attempts, accepted) && used <= accepted
    requires Collides(rows, attempts[used])
    ensures used < accepted
  {
  }

  /**
   * No argon2 digest has the key shape (it holds `$` separators), so against
   * a table of digests the query never returns a row for a candidate: the
   * first draw is always kept and the retry never happens.
   */
  lemma CollisionCheckNeverFires(rows: seq<User>, attempts: seq<Attempt>)
    requires forall i :: 0 <= i < |rows| ==> !IsApiKey(rows[i].apiKey)
    requires |attempts| > 0
    ensures FreeDrawExists(rows, attempts) && FirstFreeDraw(rows, attempts) == 0
  {
    assert !Collides(rows, attempts[0]) by {
      var k := KeyOf(attempts[0].draw);
      forall i | 0 <= i < |rows|
        ensures Get(rows[i], ApiKey) != k
      {
        assert !IsApiKey(rows[i].apiKey);
      }
    }
  }

  /**
   * A failed query ends the retrying: the first attempt's candidate is kept
   * unchecked, whatever the rows hold, including a row whose `api_key` is
   * that very candidate.
   */
  lemma FailedQueryKeepsCandidate(rows: seq<User>, attempts: seq<Attempt>)
    requires |attempts| > 0 && attempts[0].queryFails
    ensures FreeDrawExists(rows, attempts) && FirstFreeDraw(rows, attempts) == 0
  {
  }

  /**
   * `generate_api_key(connection)`: the candidate of the first attempt whose
   * query returns no row, and how many attempts were rejected before it.
   */
  method GenerateApiKey(table: Table, attempts: seq<Attempt>) returns (key: string, used: nat)
    requires FreeDrawExists(table.rows, attempts)
    ensures IsFirstFree(table.rows, attempts, used) && key == KeyOf(attempts[used].draw)
    ensures IsApiKey(key)
    ensures Lookup(table.rows, attempts[used]).Err?
    ensures !attempts[used].queryFails ==> First(table.rows, ApiKey, key) == None
  {
    var rows := table.rows;
    ghost var accepted := FirstFreeDraw(rows, attempts);
    used := 0;
    key := KeyOf(attempts[0].draw);
    while Lookup(rows, attempts[used]).Ok?
      invariant used <= accepted && key == KeyOf(attempts[used].draw)
      invariant forall j :: 0 <= j < used ==> Collides(rows, attempts[j])
      decreases accepted - used
    {
      RejectedBeforeAccepted(rows, attempts, used, accepted);
      used := used + 1;
      key := KeyOf(attempts[used].draw);
    }
  }
}
