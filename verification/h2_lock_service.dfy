/**
 * `H2LockService`: H2's exclusive mode (`SET EXCLUSIVE 1` / `SET EXCLUSIVE 0`) used
 * as the change-log lock. There is no lock information.
 */
module H2LockService {
  import opened JavaLang
  import opened LockModel
  import Service = SessionLockService

  /** `supports`: `database instanceof H2Database`. */
  function Supports(db: Database): (r: bool)
    ensures r <==> db.H2Database?
  {
    db.H2Database?
  }

  /** `acquireLock(Connection)`: `prepare` stands for preparing the statement and setting
      its 10-second query timeout, whose exceptions propagate; `update` for
      `executeUpdate`, where an update count of 0 grants the lock, any other count is
      contention, and an SQLException (a timeout included) is swallowed as contention.
      Unchecked exceptions propagate. */
  function AcquireLock(prepare: Result<()>, update: Result<int>): (r: Result<bool>)
    ensures prepare.Err? ==> r == Err(prepare.error)
    ensures prepare.Ok? ==> (r == Ok(true) <==> update == Ok(0))
    ensures prepare.Ok? && update.Err? && update.error.SQLException? ==> r == Ok(false)
    ensures prepare.Ok? && r.Err? ==> update.Err? && !update.error.SQLException? && r.error == update.error
  {
    match prepare
    case Err(e) => Err(e)
    case Ok(_) =>
      match update
      case Ok(count) => Ok(count == 0)
      case Err(e) => if e.SQLException? then Ok(false) else Err(e)
  }

  /** `acquireLock(Connection)` never throws an SQLException from the update itself: only
      the preparation can, so the session sees a cause only from there. */
  lemma UpdateFailuresAreContention(update: Result<int>)
    ensures AcquireLock(Ok(()), update).Err? ==> !AcquireLock(Ok(()), update).error.SQLException?
  {
  }

  /** `releaseLock(Connection)`: the update count 0 succeeds; any other count throws,
      with the message the PostgreSQL service uses and the Boolean `false`. */
  function ReleaseResult(count: int): (r: Result<()>)
    ensures r.Ok? <==> count == 0
    ensures r.Err? ==> r.error == LockException("pg_advisory_unlock() returned false")
  {
    if count == 0 then Ok(()) else Err(LockException("pg_advisory_unlock() returned false"))
  }

  /** `releaseLock(Connection)`: the `SET EXCLUSIVE 0` round-trip. */
  function ReleaseLock(update: Result<int>): (r: Result<()>)
    ensures update.Err? ==> r == Err(update.error)
    ensures r.Ok? <==> update == Ok(0)
  {
    Check(update, ReleaseResult)
  }

  /** `SessionLockService.acquireLock()` over this backend: the flag is set when it was
      already set or when the update counted 0 rows; an SQLException of the update is
      contention, so after a successful preparation only an unchecked exception of the
      update reaches the caller, unchanged. */
  lemma AcquireThroughSession(s: Service.Session, prepare: Result<()>, update: Result<int>)
    ensures var step := Service.AcquireLock(s, AcquireLock(prepare, update));
      && (step.session.hasChangeLogLock <==> s.hasChangeLogLock || (prepare.Ok? && update == Ok(0)))
      && (step.result.Err? ==> step.session == s)
      && (!s.hasChangeLogLock && prepare.Err? ==> step.result == Err(Service.Surface(prepare.error)))
      && (prepare.Ok? && update.Err? && update.error.SQLException? ==> step.result.Ok?)
      && (prepare.Ok? && step.result.Err? ==> update.Err? && !update.error.SQLException? && step.result.error == update.error)
  {
  }

  /** `SessionLockService.releaseLock()` over this backend: the flag is always cleared,
      and the call succeeds exactly when the update counted 0 rows. */
  lemma ReleaseThroughSession(s: Service.Session, update: Result<int>)
    ensures var step := Service.ReleaseLock(s, ReleaseLock(update));
      && !step.session.hasChangeLogLock
      && (step.result.Ok? <==> update == Ok(0))
      && (update.Err? ==> step.result == Err(Service.Surface(update.error)))
      && (update.Ok? && update.value != 0 ==>
            step.result == Err(LockException("pg_advisory_unlock() returned false")))
  {
  }

  /** `usedLock(Connection)`: always throws an unchecked "Unsupported" exception. */
  function UsedLock(): (r: Result<Option<LockInfo>>)
    ensures r.Err? && r.error == RuntimeException("Unsupported")
  {
    Err(RuntimeException("Unsupported"))
  }

  /** The session does not wrap that exception: `listLocks()` throws it as it is, not
      as a LockException. */
  lemma ListLocksUnsupported()
    ensures Service.ListLocks(UsedLock()) == Err(RuntimeException("Unsupported"))
  {
  }
}
