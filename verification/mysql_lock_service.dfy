/**
 * `MySQLLockService`: MySQL user-level locks (`GET_LOCK`, `RELEASE_LOCK`, and
 * `IS_USED_LOCK` joined with the process list). The MariaDB service reuses all of it.
 */
module MySQLLockService {
  import opened JavaLang
  import opened StringUtils
  import opened LockModel
  import Service = SessionLockService

  /** `supports`: `database instanceof MySQLDatabase`, which a MariaDB database also is. */
  function Supports(db: Database): (r: bool)
    ensures r <==> db.MySQLDatabase? || db.MariaDBDatabase?
  {
    IsMySQLDatabase(db)
  }

  /** The statements the service issues, with their bound parameters. */
  datatype Call =
    | GetLockCall(name: string, timeoutSeconds: int)  // SELECT get_lock(?, ?)
    | ReleaseLockCall(name: string)                  // SELECT release_lock(?)
    | IsUsedLockCall(name: string)                   // SELECT ... is_used_lock(?) ... processlist

  function AcquireCall(schema: string, table: string): Call { GetLockCall(LockName(schema, table), 5) }
  function ReleaseCall(schema: string, table: string): Call { ReleaseLockCall(LockName(schema, table)) }
  function InfoCall(schema: string, table: string): Call { IsUsedLockCall(LockName(schema, table)) }

  /** Documentation of the bound parameters, true by construction of the calls above:
      acquire, release and lock-info all name the same lock; acquire waits at most
      5 seconds. */
  lemma CallsShareLockName(schema: string, table: string)
    ensures AcquireCall(schema, table).name == ReleaseCall(schema, table).name
                                           == InfoCall(schema, table).name
    ensures AcquireCall(schema, table).timeoutSeconds == 5
  {
  }

  /** `getIntegerResult`: the first column as a `Number`, narrowed with `intValue()`. */
  function IntegerResult(column: Option<int>): (r: Option<int>)
    ensures r.None? <==> column.None?
    ensures r.Some? ==> IsInt(r.value) && r.value % TWO_32 == column.value % TWO_32
    ensures column.Some? && IsInt(column.value) ==> r == column
  {
    match column
    case None => None
    case Some(n) => Some(WrapInt(n))
  }

  /** The answer of `GET_LOCK()`: 1 granted, 0 timed out, NULL an error; any other
      value is an error too. */
  function AcquireOutcome(locked: Option<int>): (o: Outcome)
    ensures o == Acquired <==> locked == Some(1)
    ensures o == Contended <==> locked == Some(0)
    ensures locked.None? ==> o == Failed("GET_LOCK() returned NULL")
    ensures locked.Some? && locked.value != 0 && locked.value != 1 ==>
              o == Failed("GET_LOCK() returned " + IntToDecimal(locked.value))
  {
    match locked
    case None => Failed("GET_LOCK() returned NULL")
    case Some(n) =>
      if n == 0 then Contended
      else if n != 1 then Failed("GET_LOCK() returned " + IntToDecimal(n))
      else Acquired
  }

  /** `String.valueOf(Integer)`: "null" for null. */
  function ValueOf(n: Option<int>): string
  {
    match n
    case None => "null"
    case Some(v) => IntToDecimal(v)
  }

  /** The answer of `RELEASE_LOCK()`: only 1 is a success; NULL, 0 (not held by this
      session) and anything else throw, with the value upper-cased in the message. */
  function ReleaseResult(unlocked: Option<int>): (r: Result<()>)
    ensures r.Ok? <==> unlocked == Some(1)
    ensures unlocked.None? ==> r == Err(LockException("RELEASE_LOCK() returned NULL"))
    ensures unlocked.Some? && unlocked.value != 1 ==>
              r == Err(LockException("RELEASE_LOCK() returned " + IntToDecimal(unlocked.value)))
  {
    match unlocked
    case Some(1) => Ok(())
    case None =>
      assert Upper(ValueOf(None)) == "NULL";
      assert "RELEASE_LOCK() returned " + "NULL" == "RELEASE_LOCK() returned NULL";
      Err(LockException("RELEASE_LOCK() returned " + Upper(ValueOf(unlocked))))
    case Some(v) =>
      UpperOfDecimal(v);
      Err(LockException("RELEASE_LOCK() returned " + Upper(ValueOf(unlocked))))
  }

  /** `acquireLock(Connection)`: the `GET_LOCK` round-trip, answering the raw column. */
  function AcquireLock(reply: Result<Option<int>>): (r: Result<bool>)
    ensures reply.Err? ==> r == Err(reply.error)
    ensures r == Ok(true) <==> reply.Ok? && IntegerResult(reply.value) == Some(1)
    ensures r == Ok(false) <==> reply.Ok? && IntegerResult(reply.value) == Some(0)
  {
    Classify(reply, (column: Option<int>) => AcquireOutcome(IntegerResult(column)))
  }

  /** `releaseLock(Connection)`: the `RELEASE_LOCK` round-trip, answering the raw column. */
  function ReleaseLock(reply: Result<Option<int>>): (r: Result<()>)
    ensures reply.Err? ==> r == Err(reply.error)
    ensures r.Ok? <==> reply.Ok? && IntegerResult(reply.value) == Some(1)
  {
    Check(reply, (column: Option<int>) => ReleaseResult(IntegerResult(column)))
  }

  /** The row of the lock-info query. `time` is read with `getInt`, so a NULL reads as 0. */
  datatype LockRow = LockRow(processlistId: Option<int>, host: Option<string>, time: int,
                             state: Option<string>)

  /** The host part of `host:port`: cut at the last ':' unless that is the first character. */
  function HostOnly(host: string): (h: string)
    ensures h <= host
    ensures (exists j :: 0 < j < |host| && host[j] == ':') ==>
              |h| < |host| && host[|h|] == ':' && forall j :: |h| < j < |host| ==> host[j] != ':'
    ensures (forall j :: 0 < j < |host| ==> host[j] != ':') ==> h == host
  {
    var colon := LastIndexOf(host, ':');
    if colon > 0 then host[..colon] else host
  }

  /** An address `ip:port` loses its port. */
  lemma HostOnlyDropsPort(ip: string, port: string)
    requires |ip| > 0 && ':' !in port
    ensures HostOnly(ip + ":" + port) == ip
  {
    var host := ip + ":" + port;
    var colon := LastIndexOf(host, ':');
    assert host[|ip|] == ':';
    assert forall j :: |ip| < j < |host| ==> host[j] == port[j - |ip| - 1];
    assert colon == |ip|;
    assert host[..colon] == ip;
  }

  /** `lockedBy(ResultSet)`: `connection_id#<id>` without a host, otherwise
      `<host without port> (<state>)`. */
  function LockedBy(row: LockRow): (s: string)
    requires row.processlistId.Some?
    ensures row.host.None? ==> s == "connection_id#" + IntToDecimal(row.processlistId.value)
    ensures row.host.Some? ==> s == HostOnly(row.host.value) + " (" + StringOf(row.state) + ")"
  {
    match row.host
    case None => "connection_id#" + IntToDecimal(row.processlistId.value)
    case Some(host) => HostOnly(host) + " (" + StringOf(row.state) + ")"
  }

  /** The approximate grant time: `now - TIME` seconds when TIME is positive, else the
      raw TIME value, in `long` arithmetic. */
  function GrantTime(time: int, now: int): (t: int)
    ensures time > 0 && IsLong(now - time * 1000) ==> t == now - time * 1000
    ensures time <= 0 ==> t == time
  {
    if time > 0 then WrapLong(now - time * 1000) else time
  }

  /** The lock description a lock-info row yields: none without a row or without a
      holder; otherwise lock 1 with the approximate grant time and the holder. */
  function UsedLockOf(row: Option<LockRow>, now: int): (r: Option<LockInfo>)
    ensures r.None? <==> row.None? || row.value.processlistId.None?
    ensures r.Some? ==> r.value == LockInfo(1, GrantTime(row.value.time, now), LockedBy(row.value))
  {
    match row
    case None => None
    case Some(rw) =>
      if rw.processlistId.None? then None
      else Some(LockInfo(1, GrantTime(rw.time, now), LockedBy(rw)))
  }

  /** `usedLock(Connection)`: the lock-info round-trip at clock reading `now`. */
  function UsedLock(reply: Result<Option<LockRow>>, now: int): (r: Result<Option<LockInfo>>)
    ensures reply.Err? ==> r == Err(reply.error)
    ensures reply.Ok? ==> r == Ok(UsedLockOf(reply.value, now))
  {
    Map(reply, (row: Option<LockRow>) => UsedLockOf(row, now))
  }

  /** A lock-info row taken after the epoch: a positive TIME places the grant that many
      seconds before the clock reading. */
  lemma GrantTimeBeforeNow(time: int, now: int)
    requires IsInt(time) && 0 <= now <= MAX_LONG
    ensures time > 0 ==> GrantTime(time, now) < now && now - GrantTime(time, now) == time * 1000
  {
  }

  /** A holder without a host is told apart by its connection id: equal descriptions
      mean equal ids. */
  lemma ConnectionIdIdentifiesHolder(a: LockRow, b: LockRow)
    requires a.processlistId.Some? && b.processlistId.Some? && a.host.None? && b.host.None?
    requires LockedBy(a) == LockedBy(b)
    ensures a.processlistId == b.processlistId
  {
    var prefix := "connection_id#";
    assert LockedBy(a)[|prefix|..] == IntToDecimal(a.processlistId.value);
    assert LockedBy(b)[|prefix|..] == IntToDecimal(b.processlistId.value);
    IntToDecimalInjective(a.processlistId.value, b.processlistId.value);
  }

  /** A description ends in ')' exactly when the holder has a host: a connection id
      never does. */
  lemma LockedByShowsHost(row: LockRow)
    requires row.processlistId.Some?
    ensures var d := LockedBy(row); |d| > 0 && (d[|d| - 1] == ')' <==> row.host.Some?)
  {
    IntToDecimalEndsInDigit(row.processlistId.value);
    var d := LockedBy(row);
    if row.host.None? {
      var n := IntToDecimal(row.processlistId.value);
      assert d[|d| - 1] == n[|n| - 1];
    }
  }

  /** `SessionLockService.acquireLock()` over this backend: the lock is held afterwards
      exactly when it was already held or `GET_LOCK` answered 1; a round-trip failure
      reaches the caller wrapped, a NULL answer as its own LockException, and a failed
      attempt leaves the state alone. */
  lemma AcquireThroughSession(s: Service.Session, reply: Result<Option<int>>)
    ensures var step := Service.AcquireLock(s, AcquireLock(reply));
      && (step.session.hasChangeLogLock <==>
            s.hasChangeLogLock || (reply.Ok? && IntegerResult(reply.value) == Some(1)))
      && (step.result.Err? ==> step.session == s)
      && (!s.hasChangeLogLock && reply.Err? ==> step.result == Err(Service.Surface(reply.error)))
      && (!s.hasChangeLogLock && reply == Ok(None) ==>
            step.result == Err(LockException("GET_LOCK() returned NULL")))
  {
  }

  /** `SessionLockService.releaseLock()` over this backend: the flag is always cleared,
      and the call succeeds exactly when `RELEASE_LOCK` answered 1. */
  lemma ReleaseThroughSession(s: Service.Session, reply: Result<Option<int>>)
    ensures var step := Service.ReleaseLock(s, ReleaseLock(reply));
      && !step.session.hasChangeLogLock
      && (step.result.Ok? <==> reply.Ok? && IntegerResult(reply.value) == Some(1))
      && (reply.Err? ==> step.result == Err(Service.Surface(reply.error)))
      && (reply == Ok(None) ==> step.result == Err(LockException("RELEASE_LOCK() returned NULL")))
  {
  }

  /** `SessionLockService.listLocks()` over this backend: empty without a row or holder
      id, otherwise the single lock 1 with the holder's description. */
  lemma ListThroughSession(reply: Result<Option<LockRow>>, now: int)
    ensures var listed := Service.ListLocks(UsedLock(reply, now));
      && (reply.Err? ==> listed == Err(Service.Surface(reply.error)))
      && (reply.Ok? ==> (listed == Ok([]) <==> reply.value.None? || reply.value.value.processlistId.None?))
      && (reply.Ok? && reply.value.Some? && reply.value.value.processlistId.Some? ==>
            listed == Ok([LockInfo(1, GrantTime(reply.value.value.time, now), LockedBy(reply.value.value))]))
  {
  }

  /** A holder at `192.168.254.254:12345` in state `testing`. */
  lemma LockedByDropsPort()
    ensures LockedBy(LockRow(Some(123), Some("192.168.254.254:12345"), 15, Some("testing")))
            == "192.168.254.254 (testing)"
  {
    HostOnlyDropsPort("192.168.254.254", "12345");
    assert "192.168.254.254" + ":" + "12345" == "192.168.254.254:12345";
  }

  /** The lock name for table `databasechangeloglock` in schema `test_schema`. */
  lemma TestSchemaLockName()
    ensures LockName("test_schema", "databasechangeloglock") == "TEST_SCHEMA.DATABASECHANGELOGLOCK"
  {
    var name := "test_schema" + "." + "databasechangeloglock";
    UpperTestNameTo8(name);
    UpperTestNameTo16(name);
    UpperTestNameTo24(name);
    UpperTestNameTo32(name);
    UpperTestNameTo33(name);
    assert name[..33] == name;
  }

  lemma UpperTestNameTo8(s: string)
    requires |s| >= 8
    requires s[0] == 't' && s[1] == 'e' && s[2] == 's' && s[3] == 't' && s[4] == '_' && s[5] == 's' && s[6] == 'c' && s[7] == 'h'
    ensures Upper(s[..8]) == "TEST_SCH"
  {
    assert s[..0] == [];
    UpperExtend(s, 0, "");
    UpperExtend(s, 1, "T");
    UpperExtend(s, 2, "TE");
    UpperExtend(s, 3, "TES");
    UpperExtend(s, 4, "TEST");
    UpperExtend(s, 5, "TEST_");
    UpperExtend(s, 6, "TEST_S");
    UpperExtend(s, 7, "TEST_SC");
  }

  lemma UpperTestNameTo16(s: string)
    requires |s| >= 16 && Upper(s[..8]) == "TEST_SCH"
    requires s[8] == 'e' && s[9] == 'm' && s[10] == 'a' && s[11] == '.' && s[12] == 'd' && s[13] == 'a' && s[14] == 't' && s[15] == 'a'
    ensures Upper(s[..16]) == "TEST_SCHEMA.DATA"
  {
    UpperExtend(s, 8, "TEST_SCH");
    UpperExtend(s, 9, "TEST_SCHE");
    UpperExtend(s, 10, "TEST_SCHEM");
    UpperExtend(s, 11, "TEST_SCHEMA");
    UpperExtend(s, 12, "TEST_SCHEMA.");
    UpperExtend(s, 13, "TEST_SCHEMA.D");
    UpperExtend(s, 14, "TEST_SCHEMA.DA");
    UpperExtend(s, 15, "TEST_SCHEMA.DAT");
  }

  lemma UpperTestNameTo24(s: string)
    requires |s| >= 24 && Upper(s[..16]) == "TEST_SCHEMA.DATA"
    requires s[16] == 'b' && s[17] == 'a' && s[18] == 's' && s[19] == 'e' && s[20] == 'c' && s[21] == 'h' && s[22] == 'a' && s[23] == 'n'
    ensures Upper(s[..24]) == "TEST_SCHEMA.DATABASECHAN"
  {
    UpperExtend(s, 16, "TEST_SCHEMA.DATA");
    UpperExtend(s, 17, "TEST_SCHEMA.DATAB");
    UpperExtend(s, 18, "TEST_SCHEMA.DATABA");
    UpperExtend(s, 19, "TEST_SCHEMA.DATABAS");
    UpperExtend(s, 20, "TEST_SCHEMA.DATABASE");
    UpperExtend(s, 21, "TEST_SCHEMA.DATABASEC");
    UpperExtend(s, 22, "TEST_SCHEMA.DATABASECH");
    UpperExtend(s, 23, "TEST_SCHEMA.DATABASECHA");
  }

  lemma UpperTestNameTo32(s: string)
    requires |s| >= 32 && Upper(s[..24]) == "TEST_SCHEMA.DATABASECHAN"
    requires s[24] == 'g' && s[25] == 'e' && s[26] == 'l' && s[27] == 'o' && s[28] == 'g' && s[29] == 'l' && s[30] == 'o' && s[31] == 'c'
    ensures Upper(s[..32]) == "TEST_SCHEMA.DATABASECHANGELOGLOC"
  {
    UpperExtend(s, 24, "TEST_SCHEMA.DATABASECHAN");
    UpperExtend(s, 25, "TEST_SCHEMA.DATABASECHANG");
    UpperExtend(s, 26, "TEST_SCHEMA.DATABASECHANGE");
    UpperExtend(s, 27, "TEST_SCHEMA.DATABASECHANGEL");
    UpperExtend(s, 28, "TEST_SCHEMA.DATABASECHANGELO");
    UpperExtend(s, 29, "TEST_SCHEMA.DATABASECHANGELOG");
    UpperExtend(s, 30, "TEST_SCHEMA.DATABASECHANGELOGL");
    UpperExtend(s, 31, "TEST_SCHEMA.DATABASECHANGELOGLO");
  }

  lemma UpperTestNameTo33(s: string)
    requires |s| >= 33 && Upper(s[..32]) == "TEST_SCHEMA.DATABASECHANGELOGLOC"
    requires s[32] == 'k'
    ensures Upper(s[..33]) == "TEST_SCHEMA.DATABASECHANGELOGLOCK"
  {
    UpperExtend(s, 32, "TEST_SCHEMA.DATABASECHANGELOGLOC");
  }

  // ---------------------------------------------------------------------------
  // An 86-character schema name

  const LONG_SCHEMA: string :=
    "this_name_is_too_long_and_" + "should_be_truncated_since_" + "mysql_does_not_like_long_locknames"

  /** The 86-character schema yields a 108-character lock name: nothing cuts it to the
      64 characters MySQL 5.7 accepts. */
  lemma LongSchemaNameNotTruncated()
    ensures |LockName(LONG_SCHEMA, "DATABASECHANGELOGLOCK")| == 108
  {
  }
}
