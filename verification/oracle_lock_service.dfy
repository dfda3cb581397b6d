/**
 * `OracleLockService`: Oracle `DBMS_LOCK` user locks. Every operation first asks
 * `DBMS_LOCK.ALLOCATE_UNIQUE` for the handle of the named lock, then requests or
 * releases that handle; the lock information describes the current session.
 */
module OracleLockService {
  import opened JavaLang
  import opened StringUtils
  import opened LockModel
  import Service = SessionLockService

  /** `supports`: `database instanceof OracleDatabase`. */
  function Supports(db: Database): (r: bool)
    ensures r <==> db.OracleDatabase?
  {
    db.OracleDatabase?
  }

  /** `DBMS_LOCK` request mode 6, exclusive. */
  const X_MODE: int := 6

  /** The calls the service makes, with their bound parameters. */
  datatype Call =
    | AllocateUniqueCall(lockName: string)                          // dbms_lock.allocate_unique(?, ?)
    | RequestCall(handle: string, mode: int, timeoutSeconds: int)   // ? = dbms_lock.request(?, ?, ?)
    | ReleaseCall(handle: string)                                   // ? = dbms_lock.release(?)
    | SessionInfoCall                                               // SELECT SYS_CONTEXT(...) FROM DUAL

  /** The calls of `acquireLock`, `releaseLock` and `usedLock`; `handle` is what the
      allocation answered. */
  function AcquireCalls(schema: string, table: string, handle: string): seq<Call>
  {
    [AllocateUniqueCall(LockName(schema, table)), RequestCall(handle, X_MODE, 5)]
  }

  function ReleaseCalls(schema: string, table: string, handle: string): seq<Call>
  {
    [AllocateUniqueCall(LockName(schema, table)), ReleaseCall(handle)]
  }

  function InfoCalls(schema: string, table: string): seq<Call>
  {
    [AllocateUniqueCall(LockName(schema, table)), SessionInfoCall]
  }

  /** Documentation of the bound parameters, true by construction of the calls above:
      every operation starts by allocating the handle of the one lock name, the
      upper-cased `SCHEMA.TABLE`; a request asks for exclusive mode with a 5-second wait,
      on the handle just allocated. */
  lemma EveryOperationAllocatesFirst(schema: string, table: string, handle: string)
    ensures AcquireCalls(schema, table, handle)[0] == ReleaseCalls(schema, table, handle)[0]
              == InfoCalls(schema, table)[0]
              == AllocateUniqueCall(Upper(schema) + "." + Upper(table))
    ensures AcquireCalls(schema, table, handle)[1] == RequestCall(handle, 6, 5)
    ensures ReleaseCalls(schema, table, handle)[1] == ReleaseCall(handle)
  {
  }

  /** The return code of `DBMS_LOCK.REQUEST` (read with `getInt`, so NULL reads as 0):
      1 is a timeout, 2 to 5 are errors naming the lock `SCHEMA.TABLE`, and every other code, 0
      included, counts as granted. */
  function RequestOutcome(schema: string, table: string, rc: int): (o: Outcome)
    ensures o == Contended <==> rc == 1
    ensures o.Failed? <==> 2 <= rc <= 5
    ensures o == Acquired <==> rc < 1 || rc > 5
    ensures rc == 2 ==> o == Failed("dbms_lock.request() for lock " + LockName(schema, table) + " returned deadlock")
    ensures rc == 3 ==> o == Failed("dbms_lock.request() for lock " + LockName(schema, table) + " returned parameter error")
    ensures rc == 4 ==> o == Failed("dbms_lock.request() for lock " + LockName(schema, table)
                                    + " returned already own lock specified by lockHandle")
    ensures rc == 5 ==> o == Failed("dbms_lock.request() for lock " + LockName(schema, table) + " returned illegal lock handle")
  {
    var prefix := "dbms_lock.request() for lock " + LockName(schema, table);
    if rc == 1 then Contended
    else if rc == 2 then Failed(prefix + " returned deadlock")
    else if rc == 3 then Failed(prefix + " returned parameter error")
    else if rc == 4 then Failed(prefix + " returned already own lock specified by lockHandle")
    else if rc == 5 then Failed(prefix + " returned illegal lock handle")
    else Acquired
  }

  /** The return code of `DBMS_LOCK.RELEASE`: 3 to 5 are errors naming the lock `SCHEMA.TABLE`; every
      other code is a success. */
  function ReleaseResult(schema: string, table: string, rc: int): (r: Result<()>)
    ensures r.Err? <==> 3 <= rc <= 5
    ensures rc == 3 ==> r == Err(LockException("dbms_lock.release() for lock " + LockName(schema, table) + " returned parameter error"))
    ensures rc == 4 ==> r == Err(LockException("dbms_lock.release() for lock " + LockName(schema, table)
                                               + " returned do not own lock specified by lockHandle"))
    ensures rc == 5 ==> r == Err(LockException("dbms_lock.release() for lock " + LockName(schema, table) + " returned illegal lock handle"))
  {
    var prefix := "dbms_lock.release() for lock " + LockName(schema, table);
    if rc == 3 then Err(LockException(prefix + " returned parameter error"))
    else if rc == 4 then Err(LockException(prefix + " returned do not own lock specified by lockHandle"))
    else if rc == 5 then Err(LockException(prefix + " returned illegal lock handle"))
    else Ok(())
  }

  /** `acquireLock(Connection)`: the allocation round-trip, then the request round-trip
      answering its return code. */
  function AcquireLock(schema: string, table: string, handle: Result<string>, rc: Result<int>): (r: Result<bool>)
    ensures handle.Err? ==> r == Err(handle.error)
    ensures handle.Ok? && rc.Err? ==> r == Err(rc.error)
    ensures handle.Ok? && rc.Ok? ==> r == AcquireResult(RequestOutcome(schema, table, rc.value))
  {
    match handle
    case Err(e) => Err(e)
    case Ok(_) => Classify(rc, (code: int) => RequestOutcome(schema, table, code))
  }

  /** `releaseLock(Connection)`: the allocation round-trip, then the release round-trip. */
  function ReleaseLock(schema: string, table: string, handle: Result<string>, rc: Result<int>): (r: Result<()>)
    ensures handle.Err? ==> r == Err(handle.error)
    ensures handle.Ok? && rc.Err? ==> r == Err(rc.error)
    ensures r.Ok? <==> handle.Ok? && rc.Ok? && !(3 <= rc.value <= 5)
  {
    match handle
    case Err(e) => Err(e)
    case Ok(_) => Check(rc, (code: int) => ReleaseResult(schema, table, code))
  }

  /** The lock id reported for a handle: the handle's first ten characters parsed as an
      `int`, or 1 when the handle is shorter or those characters do not parse. */
  function LockId(handle: string): (id: int)
    ensures IsInt(id)
    ensures |handle| < 10 ==> id == 1
    ensures |handle| >= 10 && ParseInt(handle[..10]).None? ==> id == 1
    ensures |handle| >= 10 && ParseInt(handle[..10]).Some? ==> id == ParseInt(handle[..10]).value
  {
    if |handle| >= 10 then
      match ParseInt(handle[..10])
      case Some(v) => v
      case None => 1
    else 1
  }

  /** The number of decimal digits of a natural number. */
  lemma {:induction false} DecimalLength(n: nat, k: nat)
    requires k >= 1 && Pow10(k - 1) <= n < Pow10(k)
    ensures |NatToDecimal(n)| == k
    decreases k
  {
    if n >= 10 {
      DecimalLength(n / 10, k - 1);
    }
  }

  function Pow10(k: nat): (p: nat)
    ensures p >= 1
  {
    if k == 0 then 1 else 10 * Pow10(k - 1)
  }

  lemma {:induction false} Pow10Grows(k: nat)
    requires k >= 1
    ensures Pow10(k) >= 10
    decreases k
  {
    if k > 1 { Pow10Grows(k - 1); }
  }

  /** A handle whose first ten characters print an `int` of ten digits (Oracle's
      handles start with the lock id, 1073741824 to 1999999999) reports that id. */
  lemma LockIdOfHandle(id: int, rest: string)
    requires 1_000_000_000 <= id <= MAX_INT
    ensures LockId(IntToDecimal(id) + rest) == id
  {
    assert Pow10(10) == 10_000_000_000;
    DecimalLength(id, 10);
    var handle := IntToDecimal(id) + rest;
    assert handle[..10] == IntToDecimal(id);
    ParseIntOfDecimal(id);
  }

  /** A row of the session-information query; every column may be NULL. */
  datatype SessionRow = SessionRow(sessionId: Option<string>, currentUser: Option<string>,
                                   instanceName: Option<string>, host: Option<string>,
                                   osUser: Option<string>)

  /** One `(key=value)` field of the description; `%s` prints NULL as "null". */
  function Field(key: string, value: Option<string>): string
  {
    "(" + key + "=" + StringOf(value) + ")"
  }

  /** `lockedBy(ResultSet)`: the session id, user, instance name, OS user and host, in
      that order. */
  function LockedBy(row: SessionRow): string
  {
    Field("session_id", row.sessionId) + Field("current_user", row.currentUser)
      + Field("instance_name", row.instanceName) + Field("os_user", row.osUser)
      + Field("host", row.host)
  }

  /** `usedLock(Connection)` at clock reading `now`: the allocation round-trip, then the
      session query; a row describes the current session, granted "now". */
  function UsedLock(handle: Result<string>, row: Result<Option<SessionRow>>, now: int)
    : (r: Result<Option<LockInfo>>)
    ensures handle.Err? ==> r == Err(handle.error)
    ensures handle.Ok? && row.Err? ==> r == Err(row.error)
    ensures handle.Ok? && row == Ok(None) ==> r == Ok(None)
    ensures handle.Ok? && row.Ok? && row.value.Some? ==>
              r == Ok(Some(LockInfo(LockId(handle.value), now, LockedBy(row.value.value))))
  {
    match handle
    case Err(e) => Err(e)
    case Ok(h) =>
      Map(row, (rw: Option<SessionRow>) =>
        match rw
        case None => None
        case Some(info) => Some(LockInfo(LockId(h), now, LockedBy(info))))
  }

  /** For every session row, the description opens with the session id and closes with
      the host, and it holds the five fields and nothing else. */
  lemma LockedByFields(row: SessionRow)
    ensures "(session_id=" + StringOf(row.sessionId) + ")" <= LockedBy(row)
    ensures var d := LockedBy(row); var tail := "(host=" + StringOf(row.host) + ")";
      |tail| <= |d| && d[|d| - |tail|..] == tail
    ensures |LockedBy(row)| == 61 + |StringOf(row.sessionId)| + |StringOf(row.currentUser)|
              + |StringOf(row.instanceName)| + |StringOf(row.osUser)| + |StringOf(row.host)|
  {
    var a, b, c, d, e := Field("session_id", row.sessionId), Field("current_user", row.currentUser),
                         Field("instance_name", row.instanceName), Field("os_user", row.osUser),
                         Field("host", row.host);
    assert LockedBy(row) == a + (b + c + d + e);
    assert LockedBy(row) == (a + b + c + d) + e;
  }

  /** `SessionLockService.acquireLock()` over this backend: the flag is set when it was
      already set or when the request answered a granting code; a failed allocation or
      request surfaces its cause, and a deadlock names the lock `SCHEMA.TABLE`. */
  lemma AcquireThroughSession(s: Service.Session, schema: string, table: string,
                              handle: Result<string>, rc: Result<int>)
    ensures var step := Service.AcquireLock(s, AcquireLock(schema, table, handle, rc));
      && (step.session.hasChangeLogLock <==>
            s.hasChangeLogLock || (handle.Ok? && rc.Ok? && (rc.value < 1 || rc.value > 5)))
      && (step.result.Err? ==> step.session == s)
      && (!s.hasChangeLogLock && handle.Err? ==> step.result == Err(Service.Surface(handle.error)))
      && (!s.hasChangeLogLock && handle.Ok? && rc.Err? ==> step.result == Err(Service.Surface(rc.error)))
      && (!s.hasChangeLogLock && handle.Ok? && rc == Ok(1) ==> step == Service.Step(s, Ok(false)))
      && (!s.hasChangeLogLock && handle.Ok? && rc == Ok(2) ==>
            step.result == Err(LockException("dbms_lock.request() for lock " + LockName(schema, table)
                                             + " returned deadlock")))
  {
  }

  /** `SessionLockService.releaseLock()` over this backend: the flag is always cleared,
      and the call succeeds exactly when both round-trips answered and the release code
      is not an error code. */
  lemma ReleaseThroughSession(s: Service.Session, schema: string, table: string,
                              handle: Result<string>, rc: Result<int>)
    ensures var step := Service.ReleaseLock(s, ReleaseLock(schema, table, handle, rc));
      && !step.session.hasChangeLogLock
      && (step.result.Ok? <==> handle.Ok? && rc.Ok? && !(3 <= rc.value <= 5))
      && (handle.Err? ==> step.result == Err(Service.Surface(handle.error)))
      && (handle.Ok? && rc == Ok(4) ==>
            step.result == Err(LockException("dbms_lock.release() for lock " + LockName(schema, table)
                                             + " returned do not own lock specified by lockHandle")))
  {
  }

  /** `SessionLockService.listLocks()` over this backend: empty without a session row,
      otherwise the current session, under the handle's lock id, granted "now". */
  lemma ListThroughSession(handle: Result<string>, row: Result<Option<SessionRow>>, now: int)
    ensures var listed := Service.ListLocks(UsedLock(handle, row, now));
      && (handle.Err? ==> listed == Err(Service.Surface(handle.error)))
      && (handle.Ok? && row.Err? ==> listed == Err(Service.Surface(row.error)))
      && (listed == Ok([]) <==> handle.Ok? && row == Ok(None))
      && (handle.Ok? && row.Ok? && row.value.Some? ==>
            listed == Ok([LockInfo(LockId(handle.value), now, LockedBy(row.value.value))]))
  {
  }

  /** The handle `1073741824` reports lock id 1073741824. */
  lemma TestHandleLockId()
    ensures LockId("1073741824") == 1073741824
  {
    TestHandleDigits();
    LockIdOfHandle(1073741824, "");
    assert "1073741824" + "" == "1073741824";
  }

  lemma TestHandleDigits()
    ensures NatToDecimal(1073741824) == "1073741824"
  {
    assert NatToDecimal(10737) == "10737";
    assert NatToDecimal(107374) == "10737" + "4";
    assert NatToDecimal(1073741) == "107374" + "1";
    assert NatToDecimal(10737418) == "1073741" + "8";
    assert NatToDecimal(107374182) == "10737418" + "2";
    assert NatToDecimal(1073741824) == "107374182" + "4";
  }

  /** A session row names its instance, between the user and the OS user. */
  lemma LockedByNamesInstance()
    ensures LockedBy(SessionRow(Some("123"), Some("dbuser"), Some("XE"), Some("host"), Some("osuser")))
            == "(session_id=123)" + "(current_user=dbuser)" + "(instance_name=XE)" + "(os_user=osuser)"
               + "(host=host)"
  {
    var row := SessionRow(Some("123"), Some("dbuser"), Some("XE"), Some("host"), Some("osuser"));
    var a, b, c, d, e := Field("session_id", row.sessionId), Field("current_user", row.currentUser),
                         Field("instance_name", row.instanceName), Field("os_user", row.osUser),
                         Field("host", row.host);
    assert LockedBy(row) == a + b + c + d + e;
    assert a == "(session_id=123)";
    assert b == "(current_user=dbuser)";
    assert c == "(instance_name=XE)";
    assert d == "(os_user=osuser)";
    assert e == "(host=host)";
  }
}
