/**
 * `MariaDBLockService`: the MySQL lock service restricted to MariaDB databases. Every
 * lock operation is inherited, so the lock name and the answers of `GET_LOCK`,
 * `RELEASE_LOCK` and `IS_USED_LOCK` are read exactly as for MySQL.
 */
module MariaDBLockService {
  import opened JavaLang
  import opened LockModel
  import MySQL = MySQLLockService

  /** `supports`: `database instanceof MariaDBDatabase`. */
  function Supports(db: Database): (r: bool)
    ensures r <==> db.MariaDBDatabase?
  {
    db.MariaDBDatabase?
  }

  /** A MariaDB database is also accepted by the MySQL service, and the MariaDB service
      accepts nothing the MySQL service refuses. */
  lemma SupportedDatabasesNarrowMySQL(db: Database)
    ensures Supports(db) ==> MySQL.Supports(db)
    ensures db.MariaDBDatabase? ==> Supports(db) && MySQL.Supports(db)
    ensures db.MySQLDatabase? ==> !Supports(db) && MySQL.Supports(db)
  {
  }

  /** `acquireLock(Connection)`, inherited: `GET_LOCK` answering 1 grants, 0 is
      contention, NULL and anything else throw. */
  function AcquireLock(reply: Result<Option<int>>): (r: Result<bool>)
    ensures reply.Err? ==> r == Err(reply.error)
    ensures reply == Ok(Some(1)) ==> r == Ok(true)
    ensures reply == Ok(Some(0)) ==> r == Ok(false)
    ensures reply == Ok(None) ==> r == Err(LockException("GET_LOCK() returned NULL"))
    ensures r == MySQL.AcquireLock(reply)
  {
    MySQL.AcquireLock(reply)
  }

  /** `releaseLock(Connection)`, inherited: only `RELEASE_LOCK` answering 1 succeeds. */
  function ReleaseLock(reply: Result<Option<int>>): (r: Result<()>)
    ensures reply.Err? ==> r == Err(reply.error)
    ensures reply == Ok(Some(1)) ==> r == Ok(())
    ensures reply == Ok(None) ==> r == Err(LockException("RELEASE_LOCK() returned NULL"))
    ensures r == MySQL.ReleaseLock(reply)
  {
    MySQL.ReleaseLock(reply)
  }

  /** `usedLock(Connection)`, inherited: the MySQL process-list reading. */
  function UsedLock(reply: Result<Option<MySQL.LockRow>>, now: int): (r: Result<Option<LockInfo>>)
    ensures reply.Err? ==> r == Err(reply.error)
    ensures reply == Ok(None) ==> r == Ok(None)
    ensures r == MySQL.UsedLock(reply, now)
  {
    MySQL.UsedLock(reply, now)
  }
}
