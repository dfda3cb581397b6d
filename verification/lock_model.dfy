/**
 * Vocabulary shared by every lock service: the lock description `listLocks` reports,
 * the three outcomes of a backend lock request, and the Liquibase database kinds a
 * service may be asked to support.
 */
module LockModel {
  import opened JavaLang
  import opened StringUtils

  /** Liquibase's `DatabaseChangeLogLock`: lock id, grant time in milliseconds since
      the epoch, and a free-form description of the holder. */
  datatype LockInfo = LockInfo(id: int, granted: int, lockedBy: string)

  /** How a backend answered a lock request. */
  datatype Outcome =
    | Acquired                 // the lock is now held by this session
    | Contended                // another session holds it; no error
    | Failed(message: string)  // the engine reported an error: a LockException

  /** What the backend's `acquireLock(Connection)` returns or throws for an outcome. */
  function AcquireResult(o: Outcome): (r: Result<bool>)
    ensures r == Ok(true) <==> o.Acquired?
    ensures r == Ok(false) <==> o.Contended?
    ensures r.Err? <==> o.Failed?
    ensures o.Failed? ==> r.error == LockException(o.message)
  {
    match o
    case Acquired => Ok(true)
    case Contended => Ok(false)
    case Failed(m) => Err(LockException(m))
  }

  /** A JDBC round-trip that either answers `reply` or fails with an SQLException,
      followed by a classification of the answer. */
  function Classify<R>(reply: Result<R>, classify: R -> Outcome): (r: Result<bool>)
    ensures reply.Err? ==> r == Err(reply.error)
    ensures reply.Ok? ==> r == AcquireResult(classify(reply.value))
  {
    match reply
    case Err(e) => Err(e)
    case Ok(v) => AcquireResult(classify(v))
  }

  /** A JDBC round-trip for a release: the exception of the round-trip, or of the check
      applied to its answer. */
  function Check<R>(reply: Result<R>, check: R -> Result<()>): (r: Result<()>)
    ensures reply.Err? ==> r == Err(reply.error)
    ensures reply.Ok? ==> r == check(reply.value)
  {
    match reply
    case Err(e) => Err(e)
    case Ok(v) => check(v)
  }

  /** A JDBC round-trip whose answer is turned into a value by `f`. */
  function Map<R, T>(reply: Result<R>, f: R -> T): (r: Result<T>)
    ensures reply.Err? ==> r == Err(reply.error)
    ensures reply.Ok? ==> r == Ok(f(reply.value))
  {
    match reply
    case Err(e) => Err(e)
    case Ok(v) => Ok(f(v))
  }

  /** `(schema + "." + table).toUpperCase(Locale.ROOT)`: the name the MySQL, Oracle
      and SQL Server services lock, derived from the default schema and the lock table.
      It is not shortened to any length limit of the engine. */
  function LockName(schema: string, table: string): (name: string)
    ensures name == Upper(schema) + "." + Upper(table)
    ensures |name| == |schema| + 1 + |table|
  {
    UpperConcat(schema, "." + table);
    UpperConcat(".", table);
    Upper(schema + "." + table)
  }

  /** Schema and table names that differ only in the case of their letters share one
      lock. */
  lemma LockNameIgnoresCase(schema: string, table: string)
    ensures LockName(Upper(schema), Upper(table)) == LockName(schema, table)
  {
    UpperIdempotent(schema);
    UpperIdempotent(table);
  }

  /** The kinds of Liquibase `Database` the lock services distinguish. A PostgreSQL
      database reports its version through calls that may fail (`None`). */
  datatype Database =
    | MySQLDatabase
    | MariaDBDatabase
    | PostgresDatabase(majorVersion: Option<int>, minorVersion: Option<int>)
    | OracleDatabase
    | MSSQLDatabase
    | H2Database
    | OtherDatabase

  /** `database instanceof MySQLDatabase`: Liquibase's `MariaDBDatabase` extends
      `MySQLDatabase`, so a MariaDB database is one too. */
  predicate IsMySQLDatabase(db: Database)
  {
    db.MySQLDatabase? || db.MariaDBDatabase?
  }
}
