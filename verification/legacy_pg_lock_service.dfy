/**
 * `PGLockService` of package `org.liquibase.lockservice.ext`: the earlier PostgreSQL
 * service, which packs the two name hashes into a single `long` advisory lock key and
 * reports no lock details. It extends `org.liquibase.lockservice.ext.SessionLockService`,
 * which is not part of this model; the session lemmas below take that base class to
 * behave like `com.github.blagerweij.sessionlock.SessionLockService`.
 */
module LegacyPGLockService {
  import opened JavaLang
  import opened LockModel
  import PG = PGLockService
  import Service = SessionLockService

  /** `supports`: the same PostgreSQL 9.1 gate as the current service. */
  function Supports(db: Database): (r: bool)
    ensures r <==> db.PostgresDatabase? && db.majorVersion.Some? &&
                   (db.majorVersion.value > 9 ||
                    (db.majorVersion.value == 9 && db.minorVersion.Some? && db.minorVersion.value >= 1))
  {
    db.PostgresDatabase? && PG.IsAtLeastPostgres91(db.majorVersion, db.minorVersion)
  }

  /** Both PostgreSQL services accept exactly the same databases. */
  lemma SameDatabasesAsPG(db: Database)
    ensures Supports(db) <==> PG.Supports(db)
  {
  }

  /** `getChangeLogLockId()`: `(long) schemaHash << 32` holds the schema hash in the
      upper half, `(long) tableHash & 0xFFFFFFFFL` the table hash's bits in the lower
      half; the halves do not overlap, so `high | low` is their sum. */
  function LockId(schema: string, table: string): (key: int)
    ensures IsLong(key)
    ensures key / TWO_32 == HashCode(schema)
    ensures key % TWO_32 == HashCode(table) % TWO_32
    ensures WrapInt(key) == HashCode(table)
    ensures key < 0 <==> HashCode(schema) < 0
  {
    var high := WrapLong(HashCode(schema) * TWO_32);
    var low := HashCode(table) % TWO_32;
    assert high == HashCode(schema) * TWO_32;
    ModAddMultiple(low, HashCode(schema));
    ModAddMultiple(HashCode(table), -(HashCode(table) / TWO_32));
    high + low
  }

  /** Two locations share a key only when both their schema hashes and their table
      hashes agree. */
  lemma LockIdInjective(s1: string, t1: string, s2: string, t2: string)
    requires LockId(s1, t1) == LockId(s2, t2)
    ensures HashCode(s1) == HashCode(s2) && HashCode(t1) == HashCode(t2)
  {
  }

  /** The single `long` key packs the two-key service's pair: its high half is the
      second key (the schema hash), its low 32 bits are the first (the table hash). */
  lemma PacksPGKeys(schema: string, table: string)
    ensures var pair := PG.LockId(schema, table);
      LockId(schema, table) / TWO_32 == pair.objId && WrapInt(LockId(schema, table)) == pair.classId
  {
  }

  /** The statements the service issues, each binding the key with `setLong`. */
  datatype Call =
    | TryLockCall(key: int)  // SELECT pg_try_advisory_lock(?)
    | UnlockCall(key: int)   // SELECT pg_advisory_unlock(?)

  function AcquireCall(schema: string, table: string): Call { TryLockCall(LockId(schema, table)) }
  function ReleaseCall(schema: string, table: string): Call { UnlockCall(LockId(schema, table)) }

  /** Documentation of the bound parameters, true by construction of the calls above:
      acquire and release bind one and the same `long`. */
  lemma CallsShareLockKey(schema: string, table: string)
    ensures AcquireCall(schema, table).key == ReleaseCall(schema, table).key
    ensures IsLong(AcquireCall(schema, table).key)
  {
  }

  /** `acquireLock(Connection)`: as in the current service, only true grants. */
  function AcquireLock(reply: Result<Option<bool>>): (r: Result<bool>)
    ensures reply.Err? ==> r == Err(reply.error)
    ensures reply.Ok? ==> r == Ok(reply.value == Some(true))
  {
    Classify(reply, PG.AcquireOutcome)
  }

  /** `releaseLock(Connection)`: as in the current service, only true succeeds, and the
      message prints the Boolean. */
  function ReleaseLock(reply: Result<Option<bool>>): (r: Result<()>)
    ensures reply.Err? ==> r == Err(reply.error)
    ensures r.Ok? <==> reply == Ok(Some(true))
    ensures reply == Ok(Some(false)) ==> r == Err(LockException("pg_advisory_unlock() returned false"))
    ensures reply == Ok(None) ==> r == Err(LockException("pg_advisory_unlock() returned null"))
  {
    Check(reply, PG.ReleaseResult)
  }

  /** `SessionLockService.acquireLock()` over this backend: the flag is set when it was
      already set or when the server answered TRUE; a failed round-trip surfaces its cause. */
  lemma AcquireThroughSession(s: Service.Session, reply: Result<Option<bool>>)
    ensures var step := Service.AcquireLock(s, AcquireLock(reply));
      && (step.session.hasChangeLogLock <==> s.hasChangeLogLock || reply == Ok(Some(true)))
      && (step.result.Err? <==> !s.hasChangeLogLock && reply.Err?)
      && (step.result.Err? ==> step.result.error == Service.Surface(reply.error) && step.session == s)
  {
  }

  /** `SessionLockService.releaseLock()` over this backend: the flag is always cleared,
      and the call succeeds exactly when the server answered TRUE. */
  lemma ReleaseThroughSession(s: Service.Session, reply: Result<Option<bool>>)
    ensures var step := Service.ReleaseLock(s, ReleaseLock(reply));
      && !step.session.hasChangeLogLock
      && (step.result.Ok? <==> reply == Ok(Some(true)))
      && (reply.Err? ==> step.result == Err(Service.Surface(reply.error)))
      && (reply == Ok(Some(false)) ==> step.result == Err(LockException("pg_advisory_unlock() returned false")))
  {
  }

  /** `usedLock(Connection)`: always null, without a round-trip. */
  function UsedLock(): (r: Result<Option<LockInfo>>)
    ensures r == Ok(None)
  {
    Ok(None)
  }

  /** So the service never lists a lock. */
  lemma ListsNoLocks()
    ensures Service.ListLocks(UsedLock()) == Ok([])
  {
  }

  /** The key of table `databasechangeloglock` in schema `test_schema`: the bits
      0xF0B205EE_A6BFFB24, the schema hash above the table hash. */
  lemma TestLockKey()
    ensures LockId(PG.TEST_SCHEMA, PG.TEST_TABLE) == 0xF0B2_05EE_A6BF_FB24 - TWO_64
  {
    PG.TestHashCodes();
  }
}
