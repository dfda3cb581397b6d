/**
 * `MSSQLLockService`: SQL Server application locks held by the session
 * (`sp_getapplock` / `sp_releaseapplock`), with the holder looked up in
 * `sys.dm_tran_locks` joined with `sys.sysprocesses`.
 */
module MSSQLLockService {
  import opened JavaLang
  import opened StringUtils
  import opened LockModel
  import MySQL = MySQLLockService
  import Service = SessionLockService

  /** `supports`: `database instanceof MSSQLDatabase`. */
  function Supports(db: Database): (r: bool)
    ensures r <==> db.MSSQLDatabase?
  {
    db.MSSQLDatabase?
  }

  /** `getChangeLogLockName()`: `StringUtils.toUpperCase(schema + "." + table)`; the
      argument is never null, so neither is the name. */
  function LockName(schema: string, table: string): (name: string)
    ensures name == LockModel.LockName(schema, table)
  {
    ToUpperCase(Some(schema + "." + table)).value
  }

  /** The statements the service issues, with their bound parameters. */
  datatype Call =
    | GetAppLockCall(resource: string, timeoutMillis: int)  // EXEC sp_getapplock @Resource = ?, @LockTimeout = ?
    | ReleaseAppLockCall(resource: string)                  // EXEC sp_releaseapplock @Resource = ?
    | LockInfoCall(pattern: string)                         // ... WHERE DTL.resource_description like ?

  function AcquireCall(schema: string, table: string): Call { GetAppLockCall(LockName(schema, table), 5000) }
  function ReleaseCall(schema: string, table: string): Call { ReleaseAppLockCall(LockName(schema, table)) }
  function InfoCall(schema: string, table: string): Call { LockInfoCall("%" + LockName(schema, table) + "%") }

  /** Documentation of the bound parameters, true by construction of the calls above:
      acquire and release name the same resource; the lock-info pattern matches any
      resource description containing it; acquire waits at most 5000 ms. */
  lemma CallsShareResource(schema: string, table: string)
    ensures AcquireCall(schema, table).resource == ReleaseCall(schema, table).resource
    ensures InfoCall(schema, table).pattern == "%" + AcquireCall(schema, table).resource + "%"
    ensures AcquireCall(schema, table).timeoutMillis == 5000
  {
  }

  /** The return code of `sp_getapplock`: NULL and -999 are errors, -1 (timeout), -2
      (cancelled) and -3 (deadlock victim) are contention, and every other code, 0 and 1
      included, grants the lock. */
  function AcquireOutcome(locked: Option<int>): (o: Outcome)
    ensures locked.None? ==> o == Failed("GET_LOCK() returned NULL")
    ensures locked == Some(-999) ==>
              o == Failed("GET_LOCK() returned -999" + ". Indicates a parameter validation or other call error.")
    ensures o.Failed? <==> locked.None? || locked == Some(-999)
    ensures o == Contended <==> locked.Some? && -3 <= locked.value <= -1
    ensures o == Acquired <==> locked.Some? && locked.value != -999 && !(-3 <= locked.value <= -1)
  {
    match locked
    case None => Failed("GET_LOCK() returned NULL")
    case Some(n) =>
      if n == -999 then
        assert IntToDecimal(n) == "-999";
        assert "GET_LOCK() returned " + "-999" == "GET_LOCK() returned -999";
        Failed("GET_LOCK() returned " + IntToDecimal(n) + ". Indicates a parameter validation or other call error.")
      else if n == -1 || n == -2 || n == -3 then Contended
      else Acquired
  }

  /** The return code of `sp_releaseapplock`: only 0 is a success; the message carries
      the upper-cased `String.valueOf` of the code, "NULL" for NULL. */
  function ReleaseResult(unlocked: Option<int>): (r: Result<()>)
    ensures r.Ok? <==> unlocked == Some(0)
    ensures unlocked.None? ==> r == Err(LockException("RELEASE_LOCK() returned NULL"))
    ensures unlocked.Some? && unlocked.value != 0 ==>
              r == Err(LockException("RELEASE_LOCK() returned " + IntToDecimal(unlocked.value)))
  {
    match unlocked
    case Some(0) => Ok(())
    case None =>
      assert Upper(MySQL.ValueOf(None)) == "NULL";
      assert "RELEASE_LOCK() returned " + "NULL" == "RELEASE_LOCK() returned NULL";
      Err(LockException("RELEASE_LOCK() returned " + ToUpperCase(Some(MySQL.ValueOf(unlocked))).value))
    case Some(v) =>
      UpperOfDecimal(v);
      Err(LockException("RELEASE_LOCK() returned " + ToUpperCase(Some(MySQL.ValueOf(unlocked))).value))
  }

  /** `acquireLock(Connection)`: the `sp_getapplock` round-trip, answering the raw column,
      narrowed with `intValue()`. */
  function AcquireLock(reply: Result<Option<int>>): (r: Result<bool>)
    ensures reply.Err? ==> r == Err(reply.error)
    ensures reply.Ok? ==> r == AcquireResult(AcquireOutcome(MySQL.IntegerResult(reply.value)))
  {
    Classify(reply, (column: Option<int>) => AcquireOutcome(MySQL.IntegerResult(column)))
  }

  /** `releaseLock(Connection)`: the `sp_releaseapplock` round-trip. */
  function ReleaseLock(reply: Result<Option<int>>): (r: Result<()>)
    ensures reply.Err? ==> r == Err(reply.error)
    ensures r.Ok? <==> reply.Ok? && MySQL.IntegerResult(reply.value) == Some(0)
  {
    Check(reply, (column: Option<int>) => ReleaseResult(MySQL.IntegerResult(column)))
  }

  /** A row of the lock-info query: host name, login date (`getDate`) and status. The
      query selects no `spid` column. */
  datatype LockRow = LockRow(hostname: Option<string>, loginDate: int, status: Option<string>)

  /** `lockedBy(ResultSet)`: `<host> (<status>)`. Without a host name the code reads the
      column `spid`, which the query does not select, so the driver throws. */
  function LockedBy(row: LockRow): (r: Result<string>)
    ensures r.Err? <==> row.hostname.None?
    ensures r.Err? ==> r.error.SQLException?
    ensures r.Ok? ==> r.value == row.hostname.value + " (" + StringOf(row.status) + ")"
  {
    match row.hostname
    case None => Err(SQLException("The column name spid is not valid."))
    case Some(host) => Ok(host + " (" + StringOf(row.status) + ")")
  }

  /** The lock description of the first row: lock 1, granted at the holder's login date. */
  function UsedLockOf(row: Option<LockRow>): (r: Result<Option<LockInfo>>)
    ensures row.None? ==> r == Ok(None)
    ensures row.Some? && row.value.hostname.Some? ==>
              r == Ok(Some(LockInfo(1, row.value.loginDate, LockedBy(row.value).value)))
    ensures row.Some? && row.value.hostname.None? ==> r.Err? && r.error.SQLException?
  {
    match row
    case None => Ok(None)
    case Some(rw) =>
      match LockedBy(rw)
      case Err(e) => Err(e)
      case Ok(holder) => Ok(Some(LockInfo(1, rw.loginDate, holder)))
  }

  /** `usedLock(Connection)`: the lock-info round-trip. */
  function UsedLock(reply: Result<Option<LockRow>>): (r: Result<Option<LockInfo>>)
    ensures reply.Err? ==> r == Err(reply.error)
    ensures reply.Ok? ==> r == UsedLockOf(reply.value)
  {
    match reply
    case Err(e) => Err(e)
    case Ok(row) => UsedLockOf(row)
  }

  /** For every row that names a host, the description starts with that host name and
      ends with the parenthesised status. */
  lemma LockedByShowsHost(row: LockRow)
    requires row.hostname.Some?
    ensures var d := LockedBy(row).value;
      && row.hostname.value <= d
      && |d| == |row.hostname.value| + |StringOf(row.status)| + 3
      && d[|d| - 1] == ')'
  {
  }

  /** `SessionLockService.acquireLock()` over this backend: the flag is set when it was
      already set or when `sp_getapplock` answered a granting code (neither -999 nor -3
      to -1); a failed round-trip surfaces its cause, and NULL fails with a message. */
  lemma AcquireThroughSession(s: Service.Session, reply: Result<Option<int>>)
    ensures var step := Service.AcquireLock(s, AcquireLock(reply));
      var code := if reply.Ok? then MySQL.IntegerResult(reply.value) else None;
      && (step.session.hasChangeLogLock <==>
            s.hasChangeLogLock || (code.Some? && code.value != -999 && !(-3 <= code.value <= -1)))
      && (step.result.Err? ==> step.session == s)
      && (!s.hasChangeLogLock && reply.Err? ==> step.result == Err(Service.Surface(reply.error)))
      && (!s.hasChangeLogLock && reply == Ok(None) ==>
            step.result == Err(LockException("GET_LOCK() returned NULL")))
      && (!s.hasChangeLogLock && code.Some? && -3 <= code.value <= -1 ==> step == Service.Step(s, Ok(false)))
  {
  }

  /** `SessionLockService.releaseLock()` over this backend: the flag is always cleared,
      and the call succeeds exactly when `sp_releaseapplock` answered 0. */
  lemma ReleaseThroughSession(s: Service.Session, reply: Result<Option<int>>)
    ensures var step := Service.ReleaseLock(s, ReleaseLock(reply));
      && !step.session.hasChangeLogLock
      && (step.result.Ok? <==> reply.Ok? && MySQL.IntegerResult(reply.value) == Some(0))
      && (reply.Err? ==> step.result == Err(Service.Surface(reply.error)))
      && (reply == Ok(None) ==> step.result == Err(LockException("RELEASE_LOCK() returned NULL")))
  {
  }

  /** `SessionLockService.listLocks()` over this backend: empty without a row; a row with
      a host name lists lock 1 granted at the login date; a row without one fails with
      the driver's SQLException wrapped as a LockException. */
  lemma ListThroughSession(reply: Result<Option<LockRow>>)
    ensures var listed := Service.ListLocks(UsedLock(reply));
      && (reply.Err? ==> listed == Err(Service.Surface(reply.error)))
      && (listed == Ok([]) <==> reply == Ok(None))
      && (reply.Ok? && reply.value.Some? && reply.value.value.hostname.None? ==>
            listed.Err? && listed.error.LockExceptionCausedBy? && listed.error.cause.SQLException?)
      && (reply.Ok? && reply.value.Some? && reply.value.value.hostname.Some? ==>
            var row := reply.value.value;
            listed == Ok([LockInfo(1, row.loginDate, row.hostname.value + " (" + StringOf(row.status) + ")")]))
  {
  }
}
