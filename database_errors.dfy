/**
 * `DatabaseError` and its `Display` text (the `#[error(...)]` strings that
 * `thiserror` turns into `to_string()`).  The variant name `UserameExists`
 * keeps the source's spelling.
 */
module DatabaseErrors {

  datatype DatabaseError =
    | NoUrl
    | PoolMinumumConnection
    | ConnectionTimeout
    | UserameExists
    | EmailExists
    | HashError

  /** `e.to_string()` */
  function Display(e: DatabaseError): (text: string)
    ensures |text| > 0 && text[|text| - 1] == '.'
  {
    match e
    case NoUrl => "There is no database url in the enviroment."
    case PoolMinumumConnection => "Pool is unable to open minumum connections."
    case ConnectionTimeout => "Connection timeout."
    case UserameExists => "Username exists choose another one."
    case EmailExists => "Email exists choose another one."
    case HashError => "Unable to hash api key."
  }

  /** The display text tells the variant: no two variants share a message. */
  lemma DisplayInjective(e1: DatabaseError, e2: DatabaseError)
    ensures Display(e1) == Display(e2) <==> e1 == e2
  {
  }
}
