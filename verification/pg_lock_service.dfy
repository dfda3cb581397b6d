/**
 * `PGLockService` (package `com.github.blagerweij.sessionlock`): PostgreSQL
 * session-level advisory locks keyed by two `int`s, the hash codes of the lock table
 * name and of the default schema name.
 */
module PGLockService {
  import opened JavaLang
  import opened LockModel
  import Service = SessionLockService

  /** `isAtLeastPostgres91`: the version calls answer `None` when they throw a
      DatabaseException, which makes the answer false. A major version above 9
      decides without asking for the minor version. */
  function IsAtLeastPostgres91(majorVersion: Option<int>, minorVersion: Option<int>): (r: bool)
    ensures majorVersion.None? ==> !r
    ensures majorVersion.Some? && majorVersion.value > 9 ==> r
    ensures majorVersion.Some? && majorVersion.value < 9 ==> !r
    ensures majorVersion == Some(9) ==> (r <==> minorVersion.Some? && minorVersion.value >= 1)
  {
    match majorVersion
    case None => false
    case Some(major) =>
      major > 9 || (major == 9 && match minorVersion { case None => false case Some(minor) => minor >= 1 })
  }

  /** `supports`: a PostgreSQL database of version 9.1 or later. */
  function Supports(db: Database): (r: bool)
    ensures r ==> db.PostgresDatabase?
    ensures r <==> db.PostgresDatabase? && db.majorVersion.Some? &&
                   (db.majorVersion.value > 9 ||
                    (db.majorVersion.value == 9 && db.minorVersion.Some? && db.minorVersion.value >= 1))
  {
    db.PostgresDatabase? && IsAtLeastPostgres91(db.majorVersion, db.minorVersion)
  }

  /** The two-part advisory lock key: `(classid, objid)`. */
  datatype LockKey = LockKey(classId: int, objId: int)

  /** `getChangeLogLockId()`: the table name's hash first, the schema name's second. */
  function LockId(schema: string, table: string): (k: LockKey)
    ensures IsInt(k.classId) && IsInt(k.objId)
    ensures k.classId == HashCode(table) && k.objId == HashCode(schema)
  {
    LockKey(HashCode(table), HashCode(schema))
  }

  /** The statements the service issues, with their bound parameters. */
  datatype Call =
    | TryLockCall(key: LockKey)   // SELECT pg_try_advisory_lock(?,?)
    | UnlockCall(key: LockKey)    // SELECT pg_advisory_unlock(?,?)
    | LockInfoCall(key: LockKey)  // SELECT ... FROM pg_locks ... classid = ? AND objid = ?

  function AcquireCall(schema: string, table: string): Call { TryLockCall(LockId(schema, table)) }
  function ReleaseCall(schema: string, table: string): Call { UnlockCall(LockId(schema, table)) }
  function InfoCall(schema: string, table: string): Call { LockInfoCall(LockId(schema, table)) }

  /** Documentation of the bound parameters, true by construction of the calls above:
      acquire, release and lock-info all bind the same key pair. */
  lemma CallsShareLockKey(schema: string, table: string)
    ensures AcquireCall(schema, table).key == ReleaseCall(schema, table).key
                                          == InfoCall(schema, table).key
    ensures AcquireCall(schema, table).key == LockKey(HashCode(table), HashCode(schema))
  {
  }

  /** The answer of `pg_try_advisory_lock`: only true grants; false and NULL are
      contention, never an error. */
  function AcquireOutcome(locked: Option<bool>): (o: Outcome)
    ensures !o.Failed?
    ensures o == Acquired <==> locked == Some(true)
  {
    if locked == Some(true) then Acquired else Contended
  }

  /** `"" + Boolean`: "true", "false", or "null". */
  function BooleanText(b: Option<bool>): string
  {
    match b
    case None => "null"
    case Some(v) => if v then "true" else "false"
  }

  /** The answer of `pg_advisory_unlock`: only true succeeds. */
  function ReleaseResult(unlocked: Option<bool>): (r: Result<()>)
    ensures r.Ok? <==> unlocked == Some(true)
    ensures unlocked == Some(false) ==> r == Err(LockException("pg_advisory_unlock() returned false"))
    ensures unlocked.None? ==> r == Err(LockException("pg_advisory_unlock() returned null"))
  {
    match unlocked
    case Some(true) => Ok(())
    case Some(false) =>
      assert BooleanText(unlocked) == "false";
      assert "pg_advisory_unlock() returned " + "false" == "pg_advisory_unlock() returned false";
      Err(LockException("pg_advisory_unlock() returned " + BooleanText(unlocked)))
    case None =>
      assert BooleanText(unlocked) == "null";
      assert "pg_advisory_unlock() returned " + "null" == "pg_advisory_unlock() returned null";
      Err(LockException("pg_advisory_unlock() returned " + BooleanText(unlocked)))
  }

  /** `acquireLock(Connection)`: the `pg_try_advisory_lock` round-trip. */
  function AcquireLock(reply: Result<Option<bool>>): (r: Result<bool>)
    ensures reply.Err? ==> r == Err(reply.error)
    ensures reply.Ok? ==> r == Ok(reply.value == Some(true))
  {
    Classify(reply, AcquireOutcome)
  }

  /** `releaseLock(Connection)`: the `pg_advisory_unlock` round-trip. */
  function ReleaseLock(reply: Result<Option<bool>>): (r: Result<()>)
    ensures reply.Err? ==> r == Err(reply.error)
    ensures r.Ok? <==> reply == Ok(Some(true))
  {
    Check(reply, ReleaseResult)
  }

  /** A row of the lock-info query: the holder's pid, client host, backend start time
      (milliseconds) and state. */
  datatype LockRow = LockRow(pid: int, clientHostname: Option<string>, backendStart: int,
                             state: Option<string>)

  /** `lockedBy(ResultSet)`: `pid#<pid>` without a client host name, otherwise
      `<host> (<state>)`. */
  function LockedBy(row: LockRow): (s: string)
    ensures row.clientHostname.None? ==> s == "pid#" + IntToDecimal(row.pid)
    ensures row.clientHostname.Some? ==>
              s == row.clientHostname.value + " (" + StringOf(row.state) + ")"
  {
    match row.clientHostname
    case None => "pid#" + IntToDecimal(row.pid)
    case Some(host) => host + " (" + StringOf(row.state) + ")"
  }

  /** The lock description of the first granted row: lock 1, granted at backend start. */
  function UsedLockOf(row: Option<LockRow>): (r: Option<LockInfo>)
    ensures r.None? <==> row.None?
    ensures r.Some? ==> r.value == LockInfo(1, row.value.backendStart, LockedBy(row.value))
  {
    match row
    case None => None
    case Some(rw) => Some(LockInfo(1, rw.backendStart, LockedBy(rw)))
  }

  /** `usedLock(Connection)`: the lock-info round-trip. */
  function UsedLock(reply: Result<Option<LockRow>>): (r: Result<Option<LockInfo>>)
    ensures reply.Err? ==> r == Err(reply.error)
    ensures reply.Ok? ==> r == Ok(UsedLockOf(reply.value))
  {
    Map(reply, UsedLockOf)
  }

  /** A holder without a client host name is told apart by its pid: equal descriptions
      mean equal pids. */
  lemma PidIdentifiesHolder(a: LockRow, b: LockRow)
    requires a.clientHostname.None? && b.clientHostname.None? && LockedBy(a) == LockedBy(b)
    ensures a.pid == b.pid
  {
    assert LockedBy(a)[4..] == IntToDecimal(a.pid);
    assert LockedBy(b)[4..] == IntToDecimal(b.pid);
    IntToDecimalInjective(a.pid, b.pid);
  }

  /** A description ends in ')' exactly when the client has a host name: a pid never
      does. */
  lemma LockedByShowsHost(row: LockRow)
    ensures var d := LockedBy(row); |d| > 0 && (d[|d| - 1] == ')' <==> row.clientHostname.Some?)
  {
    IntToDecimalEndsInDigit(row.pid);
    var d := LockedBy(row);
    if row.clientHostname.None? {
      var n := IntToDecimal(row.pid);
      assert d[|d| - 1] == n[|n| - 1];
    }
  }

  /** `SessionLockService.acquireLock()` over this backend: the lock is held afterwards
      exactly when it was already held or the server answered TRUE; only a round-trip
      failure is an error, and it reaches the caller wrapped. */
  lemma AcquireThroughSession(s: Service.Session, reply: Result<Option<bool>>)
    ensures var step := Service.AcquireLock(s, AcquireLock(reply));
      && (step.session.hasChangeLogLock <==> s.hasChangeLogLock || reply == Ok(Some(true)))
      && (step.result.Err? <==> !s.hasChangeLogLock && reply.Err?)
      && (step.result.Err? ==> step.result.error == Service.Surface(reply.error) && step.session == s)
  {
  }

  /** `SessionLockService.releaseLock()` over this backend: the flag is always cleared,
      and the call succeeds exactly when the server answered TRUE. */
  lemma ReleaseThroughSession(s: Service.Session, reply: Result<Option<bool>>)
    ensures var step := Service.ReleaseLock(s, ReleaseLock(reply));
      && !step.session.hasChangeLogLock
      && (step.result.Ok? <==> reply == Ok(Some(true)))
      && (reply.Err? ==> step.result == Err(Service.Surface(reply.error)))
      && (reply == Ok(None) ==> step.result == Err(LockException("pg_advisory_unlock() returned null")))
  {
  }

  /** `SessionLockService.listLocks()` over this backend: empty without a row, otherwise
      the single lock 1 granted at the holder's backend start. */
  lemma ListThroughSession(reply: Result<Option<LockRow>>)
    ensures var listed := Service.ListLocks(UsedLock(reply));
      && (reply.Err? ==> listed == Err(Service.Surface(reply.error)))
      && (listed == Ok([]) <==> reply == Ok(None))
      && (reply.Ok? && reply.value.Some? ==>
            listed == Ok([LockInfo(1, reply.value.value.backendStart, LockedBy(reply.value.value))]))
  {
  }

  /** A holder connected from `some-body.example.net` in state `testing`. */
  lemma LockedByHostAndState()
    ensures LockedBy(LockRow(123, Some("some-body.example.net"), 0, Some("testing")))
            == "some-body.example.net (testing)"
  {
  }

  /** A holder without a client host name is named by its pid. */
  lemma LockedByPid()
    ensures LockedBy(LockRow(123, None, 0, Some("testing"))) == "pid#123"
  {
  }

  // ---------------------------------------------------------------------------
  // The key of `test_schema.databasechangeloglock`

  const TEST_SCHEMA: string := "test_schema"
  const TEST_TABLE: string := "databasechangeloglock"

  /** The key pair for table `databasechangeloglock` in schema `test_schema`:
      0xA6BFFB24 and 0xF0B205EE as Java `int`s. */
  lemma TestLockKey()
    ensures LockId(TEST_SCHEMA, TEST_TABLE) == LockKey(0xA6BFFB24 - TWO_32, 0xF0B205EE - TWO_32)
  {
    TestHashCodes();
  }

  /** The hash codes of the two names. */
  lemma TestHashCodes()
    ensures HashCode(TEST_TABLE) == 0xA6BFFB24 - TWO_32
    ensures HashCode(TEST_SCHEMA) == 0xF0B205EE - TWO_32
  {
    TestTableHashCode();
    TestSchemaHashCode();
  }

  lemma TestTableHashCode()
    ensures HashCode(TEST_TABLE) == 0xA6BFFB24 - TWO_32
  {
    var table := TEST_TABLE;
    TableNameHashTo2(table);
    TableNameHashTo4(table);
    TableNameHashTo8(table);
    TableNameHashTo12(table);
    TableNameHashTo16(table);
    TableNameHashTo20(table);
    TableNameHashTo21(table);
    assert TEST_TABLE[..21] == TEST_TABLE;
  }

  lemma TestSchemaHashCode()
    ensures HashCode(TEST_SCHEMA) == 0xF0B205EE - TWO_32
  {
    var schema := TEST_SCHEMA;
    SchemaNameHashTo2(schema);
    SchemaNameHashTo4(schema);
    SchemaNameHashTo8(schema);
    SchemaNameHashTo11(schema);
    assert TEST_SCHEMA[..11] == TEST_SCHEMA;
  }

  lemma TableNameHashTo2(s: string)
    requires |s| >= 2 && s[0] == 'd' && s[1] == 'a'
    ensures HashCode(s[..2]) == 3197
  {
    assert s[..0] == [];
    HashExtend(s, 0, 'd', 0, 0);
    HashExtend(s, 1, 'a', 100, 0);
  }

  lemma TableNameHashTo4(s: string)
    requires |s| >= 4 && HashCode(s[..2]) == 3197
    requires s[2] == 't' && s[3] == 'a'
    ensures HashCode(s[..4]) == 3076010
  {
    HashExtend(s, 2, 't', 3197, 0);
    HashExtend(s, 3, 'a', 99223, 0);
  }

  lemma TableNameHashTo8(s: string)
    requires |s| >= 8 && HashCode(s[..4]) == 3076010
    requires s[4] == 'b' && s[5] == 'a' && s[6] == 's' && s[7] == 'e'
    ensures HashCode(s[..8]) == 1789464955
  {
    HashExtend(s, 4, 'b', 3076010, 0);
    HashExtend(s, 5, 'a', 95356408, 1);
    HashExtend(s, 6, 's', -1338918551, -10);
    HashExtend(s, 7, 'e', 1443197994, 10);
  }

  lemma TableNameHashTo12(s: string)
    requires |s| >= 12 && HashCode(s[..8]) == 1789464955
    requires s[8] == 'c' && s[9] == 'h' && s[10] == 'a' && s[11] == 'n'
    ensures HashCode(s[..12]) == -458461363
  {
    HashExtend(s, 8, 'c', 1789464955, 13);
    HashExtend(s, 9, 'h', -361161144, -3);
    HashExtend(s, 10, 'a', 1688906528, 12);
    HashExtend(s, 11, 'n', 816494913, 6);
  }

  lemma TableNameHashTo16(s: string)
    requires |s| >= 16 && HashCode(s[..12]) == -458461363
    requires s[12] == 'g' && s[13] == 'e' && s[14] == 'l' && s[15] == 'o'
    ensures HashCode(s[..16]) == -817210450
  {
    HashExtend(s, 12, 'g', -458461363, -3);
    HashExtend(s, 13, 'e', -1327400262, -10);
    HashExtend(s, 14, 'l', 1800264939, 13);
    HashExtend(s, 15, 'o', -26361631, 0);
  }

  lemma TableNameHashTo20(s: string)
    requires |s| >= 20 && HashCode(s[..16]) == -817210450
    requires s[16] == 'g' && s[17] == 'l' && s[18] == 'o' && s[19] == 'c'
    ensures HashCode(s[..20]) == 644434471
  {
    HashExtend(s, 16, 'g', -817210450, -6);
    HashExtend(s, 17, 'l', 436279929, 3);
    HashExtend(s, 18, 'o', 639776019, 5);
    HashExtend(s, 19, 'c', -1641779780, -12);
  }

  lemma TableNameHashTo21(s: string)
    requires |s| >= 21 && HashCode(s[..20]) == 644434471
    requires s[20] == 'k'
    ensures HashCode(s[..21]) == -1497367772
  {
    HashExtend(s, 20, 'k', 644434471, 5);
  }

  lemma SchemaNameHashTo2(s: string)
    requires |s| >= 2 && s[0] == 't' && s[1] == 'e'
    ensures HashCode(s[..2]) == 3697
  {
    assert s[..0] == [];
    HashExtend(s, 0, 't', 0, 0);
    HashExtend(s, 1, 'e', 116, 0);
  }

  lemma SchemaNameHashTo4(s: string)
    requires |s| >= 4 && HashCode(s[..2]) == 3697
    requires s[2] == 's' && s[3] == 't'
    ensures HashCode(s[..4]) == 3556498
  {
    HashExtend(s, 2, 's', 3697, 0);
    HashExtend(s, 3, 't', 114722, 0);
  }

  lemma SchemaNameHashTo8(s: string)
    requires |s| >= 8 && HashCode(s[..4]) == 3556498
    requires s[4] == '_' && s[5] == 's' && s[6] == 'c' && s[7] == 'h'
    ensures HashCode(s[..8]) == -1146448149
  {
    HashExtend(s, 4, '_', 3556498, 0);
    HashExtend(s, 5, 's', 110251533, 1);
    HashExtend(s, 6, 'c', -877169658, -6);
    HashExtend(s, 7, 'h', -1422455523, -10);
  }

  lemma SchemaNameHashTo11(s: string)
    requires |s| >= 11 && HashCode(s[..8]) == -1146448149
    requires s[8] == 'e' && s[9] == 'm' && s[10] == 'a'
    ensures HashCode(s[..11]) == -256768530
  {
    HashExtend(s, 8, 'e', -1146448149, -8);
    HashExtend(s, 9, 'm', -1180154150, -9);
    HashExtend(s, 10, 'a', 2069927123, 15);
  }
}
