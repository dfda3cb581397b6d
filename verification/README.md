# liquibase-sessionlock, modelled in Dafny

liquibase-sessionlock replaces Liquibase's table-based change-log lock with a lock
held by the database session itself. If the process dies, the database drops the lock.
This project models the core of that extension:

- the backend-independent `SessionLockService` state machine: `acquireLock`,
  `releaseLock`, `forceReleaseLock`, `listLocks`, `waitForLock`,
  `init`/`reset`/`destroy`, `getPriority` and `supports`;
- the seven backends, with each one's lock key, call parameters, result-code
  classification, `usedLock` and `lockedBy`:
  - MySQL: `GET_LOCK`;
  - MariaDB: delegates to MySQL;
  - PostgreSQL: two-key advisory lock;
  - legacy PostgreSQL: one 64-bit key;
  - Oracle: `DBMS_LOCK`;
  - SQL Server: `sp_getapplock`;
  - H2: `SET EXCLUSIVE`;
- `StringUtils.truncate` and `StringUtils.toUpperCase`.

A backend round-trip is an input of the model. It is the value JDBC answered (`Ok`) or
the exception it threw (`Err`). Each backend is then a pure function from those answers
to what the Java method returns or throws. Java `int`/`long` arithmetic is written out
as explicit two's-complement wrap-around (`JavaLang.WrapInt`, `JavaLang.WrapLong`).
`String.hashCode` is defined from its documented polynomial over UTF-16 code units.
`String.length()` is likewise the number of UTF-16 code units (`JavaLang.JavaLength`).
Each backend has lemmas (`AcquireThroughSession`, `ReleaseThroughSession`,
`ListThroughSession`) that run it through the session state machine and state, for
every answer, whether the session ends up holding the lock and what the caller sees.

Modules:
- `JavaLang`: Java platform pieces — null, exceptions, int/long, decimal text,
  `parseInt`, `lastIndexOf`, `hashCode`.
- `StringUtils`.
- `LockModel`: the lock description, the lock name shared by three services, the three
  outcomes of a lock request, and the database kinds.
- `SessionLockService`.
- One module per backend.
- `LockServices`: which service accepts which database.

## Model

| member | source | states |
|---|---|---|
| SessionLockService.GetPriority | src/main/java/com/github/blagerweij/sessionlock/SessionLockService.java:50-54 | the priority is one above Liquibase's default, in `int` arithmetic (MIN_INT only when the default is MAX_INT) |
| SessionLockService.Supports | src/main/java/com/github/blagerweij/sessionlock/SessionLockService.java:66-70 | the base service supports no database |
| SessionLockService.Init | src/main/java/com/github/blagerweij/sessionlock/SessionLockService.java:128-131 | afterwards the lock is not held |
| SessionLockService.Reset | src/main/java/com/github/blagerweij/sessionlock/SessionLockService.java:113-116 | reset is init, and yields the freshly constructed state |
| SessionLockService.Destroy | src/main/java/com/github/blagerweij/sessionlock/SessionLockService.java:118-121 | destroy is reset |
| SessionLockService.Surface | src/main/java/com/github/blagerweij/sessionlock/SessionLockService.java:154-156 | an SQLException leaves the service only as the cause of a LockException; other exceptions pass unchanged; no SQLException escapes |
| SessionLockService.AcquireLock | src/main/java/com/github/blagerweij/sessionlock/SessionLockService.java:141-157 | holding: true without asking the backend; granted: flag set, true; contended: false, state kept; backend exception surfaced, state kept; flag set afterwards iff true returned |
| SessionLockService.AcquireLockShortCircuits | src/main/java/com/github/blagerweij/sessionlock/SessionLockService.java:142-145 | while the lock is held the backend's answer is irrelevant |
| SessionLockService.ReleaseLock | src/main/java/com/github/blagerweij/sessionlock/SessionLockService.java:173-183 | the flag is cleared whatever the backend does; success iff the backend succeeded; a backend exception is surfaced |
| SessionLockService.ForceReleaseLock | src/main/java/com/github/blagerweij/sessionlock/SessionLockService.java:107-111 | forced release is a release from the initial state, whatever the prior state |
| SessionLockService.AcquireReleaseRoundTrip | src/main/java/com/github/blagerweij/sessionlock/SessionLockService.java:141-183 | a granted acquire followed by any release returns the service to its initial state |
| SessionLockService.ListLocks | src/main/java/com/github/blagerweij/sessionlock/SessionLockService.java:197-207 | no lock gives an empty array, a lock a one-element array; at most one entry; failure iff the backend failed, surfaced |
| SessionLockService.Deadline | src/main/java/com/github/blagerweij/sessionlock/SessionLockService.java:75 | the give-up time is start plus the wait time in minutes (times 60000 ms), exactly so when no `long` overflow occurs |
| SessionLockService.GiveUp | src/main/java/com/github/blagerweij/sessionlock/SessionLockService.java:89-104 | always an exception: a LockException naming the first lock's holder and grant date, or UNKNOWN; a listLocks failure propagates instead |
| SessionLockService.WaitFrom | src/main/java/com/github/blagerweij/sessionlock/SessionLockService.java:73-105 | waiting from a given poll returns normally only holding the lock, and on an exception leaves the state unchanged |
| SessionLockService.WaitOutcomes | src/main/java/com/github/blagerweij/sessionlock/SessionLockService.java:73-105 | normal return only with the flag already set or after a granted attempt before the deadline; the first attempt not refused decides; a poll at or after the deadline gives up naming the holder; a refusal followed by a negative sleep duration throws |
| SessionLockService.WaitUnlocked | src/main/java/com/github/blagerweij/sessionlock/SessionLockService.java:73-105 | for an unlocked session, the outcome of waiting is decided by the first poll that is not a contended one before the deadline |
| SessionLockService.WaitForLock | src/main/java/com/github/blagerweij/sessionlock/SessionLockService.java:73-105 | the polling loop computes exactly the attempt-by-attempt reference `WaitFrom` |
| StringUtils.Upper | src/main/java/com/github/blagerweij/sessionlock/util/StringUtils.java:23 | upper-casing keeps the length and maps each character through the ASCII upper-case map |
| StringUtils.UpperConcat | src/main/java/com/github/blagerweij/sessionlock/util/StringUtils.java:23 | upper-casing distributes over concatenation, so `schema.table` becomes `SCHEMA.TABLE` |
| StringUtils.UpperIdempotent | src/main/java/com/github/blagerweij/sessionlock/util/StringUtils.java:23 | upper-casing twice is upper-casing once |
| StringUtils.UpperOfDecimal | src/main/java/com/github/blagerweij/sessionlock/util/StringUtils.java:23 | upper-casing leaves the decimal text of an integer unchanged |
| StringUtils.ToUpperCase | src/main/java/com/github/blagerweij/sessionlock/util/StringUtils.java:19-25 | null iff null; otherwise the upper-cased string |
| StringUtils.Truncate | src/main/java/com/github/blagerweij/sessionlock/util/StringUtils.java:11-17 | lengths are counted in UTF-16 code units, as `String.length()` does; null and short strings come back unchanged; a longer string is cut to a prefix of exactly `maxlength` units, one fewer when the cut would split a surrogate pair; a negative `maxlength` on a non-null string throws, and nothing else does |
| StringUtils.TruncateBmp | src/main/java/com/github/blagerweij/sessionlock/util/StringUtils.java:11-17 | for a string of Basic Multilingual Plane characters the result is the prefix of length min(length, maxlength) |
| StringUtils.TruncateDropsHalfPair | src/main/java/com/github/blagerweij/sessionlock/util/StringUtils.java:11-17 | a cut through an emoji's surrogate pair keeps neither half: `"\u{1F600}"` truncated to 1 is empty, `"a\u{1F600}"` truncated to 2 is `"a"` |
| StringUtils.TruncateIdempotent | src/main/java/com/github/blagerweij/sessionlock/util/StringUtils.java:11-17 | truncating twice is truncating once |
| JavaLang.ParseIntOfDecimal | src/main/java/com/github/blagerweij/sessionlock/OracleLockService.java:153 | `Integer.parseInt` inverts the decimal text of every `int` |
| JavaLang.IntToDecimalInjective | src/main/java/com/github/blagerweij/sessionlock/MySQLLockService.java:139 | the decimal text that string concatenation gives an `int` or `long` is injective: equal texts mean equal numbers |
| JavaLang.HashCodeAppend | src/main/java/com/github/blagerweij/sessionlock/PGLockService.java:71-78 | appending a BMP character extends `hashCode` as `31 * h + c` in `int` arithmetic |
| JavaLang.ComputeHashCode | src/main/java/com/github/blagerweij/sessionlock/PGLockService.java:71-78 | the JDK's wrapping loop equals the documented `hashCode` polynomial |
| LockModel.AcquireResult | src/main/java/com/github/blagerweij/sessionlock/SessionLockService.java:159-171 | a backend answers true iff acquired, false iff contended, and throws a LockException iff the request failed |
| MySQLLockService.Supports | src/main/java/com/github/blagerweij/sessionlock/MySQLLockService.java:45-48 | accepted iff the database is MySQL, MariaDB included |
| LockModel.LockName | src/main/java/com/github/blagerweij/sessionlock/MySQLLockService.java:50-54 | the name is `SCHEMA.TABLE` upper-cased part by part; under the ASCII case map of `StringUtils.Upper` its length is the schema's plus the table's plus one, so nothing is shortened |
| LockModel.LockNameIgnoresCase | src/main/java/com/github/blagerweij/sessionlock/MySQLLockService.java:50-54 | schema and table names differing only in letter case share one lock |
| MySQLLockService.CallsShareLockName | src/main/java/com/github/blagerweij/sessionlock/MySQLLockService.java:69-118 | documents, by construction, that acquire, release and lock-info bind the same lock name and that acquire waits 5 seconds |
| MySQLLockService.IntegerResult | src/main/java/com/github/blagerweij/sessionlock/MySQLLockService.java:56-62 | null iff null; otherwise the `int` congruent to the column modulo 2^32, the value itself when it fits |
| MySQLLockService.AcquireOutcome | src/main/java/com/github/blagerweij/sessionlock/MySQLLockService.java:76-84 | acquired iff 1, contended iff 0; NULL and every other value are errors with the value in the message |
| MySQLLockService.ReleaseResult | src/main/java/com/github/blagerweij/sessionlock/MySQLLockService.java:98-102 | success iff 1; otherwise an exception carrying "NULL" or the value's decimal text |
| MySQLLockService.AcquireLock | src/main/java/com/github/blagerweij/sessionlock/MySQLLockService.java:69-86 | true iff the round-trip answers 1 and false iff 0, as `int`; a round-trip exception propagates |
| MySQLLockService.ReleaseLock | src/main/java/com/github/blagerweij/sessionlock/MySQLLockService.java:93-104 | succeeds iff the round-trip answers 1; a round-trip exception propagates |
| MySQLLockService.HostOnly | src/main/java/com/github/blagerweij/sessionlock/MySQLLockService.java:142-145 | the result is a prefix of the host; it ends just before the last ':' when there is one past position 0; otherwise it is the whole host |
| MySQLLockService.HostOnlyDropsPort | src/main/java/com/github/blagerweij/sessionlock/MySQLLockService.java:142-145 | `ip:port` loses exactly its port |
| MySQLLockService.LockedBy | src/main/java/com/github/blagerweij/sessionlock/MySQLLockService.java:136-147 | `connection_id#<id>` without a host; otherwise the port-less host and the state |
| MySQLLockService.LockedByDropsPort | src/main/java/com/github/blagerweij/sessionlock/MySQLLockService.java:136-147 | a holder at `192.168.254.254:12345` in state `testing` is described as `192.168.254.254 (testing)` |
| MySQLLockService.ConnectionIdIdentifiesHolder | src/main/java/com/github/blagerweij/sessionlock/MySQLLockService.java:136-147 | two host-less holders with the same description have the same connection id |
| MySQLLockService.LockedByShowsHost | src/main/java/com/github/blagerweij/sessionlock/MySQLLockService.java:136-147 | a description ends in `)` iff the holder has a host, so the two forms never coincide |
| MySQLLockService.AcquireThroughSession | src/main/java/com/github/blagerweij/sessionlock/MySQLLockService.java:69-86 | through `SessionLockService.acquireLock()`: the flag is set iff it was set or GET_LOCK answered 1; errors leave it alone and are surfaced |
| MySQLLockService.ReleaseThroughSession | src/main/java/com/github/blagerweij/sessionlock/MySQLLockService.java:93-104 | through `SessionLockService.releaseLock()`: the flag is always cleared; success iff RELEASE_LOCK answered 1 |
| MySQLLockService.ListThroughSession | src/main/java/com/github/blagerweij/sessionlock/MySQLLockService.java:115-134 | through `SessionLockService.listLocks()`: empty iff no row or no holder id; otherwise lock 1 with its grant time and holder |
| MySQLLockService.GrantTime | src/main/java/com/github/blagerweij/sessionlock/MySQLLockService.java:125-130 | positive TIME seconds are subtracted from the clock in `long` arithmetic; otherwise TIME itself |
| MySQLLockService.GrantTimeBeforeNow | src/main/java/com/github/blagerweij/sessionlock/MySQLLockService.java:125-130 | for a positive TIME and a clock reading that is a non-negative `long`, the grant time lies exactly TIME seconds before now |
| MySQLLockService.UsedLockOf | src/main/java/com/github/blagerweij/sessionlock/MySQLLockService.java:120-132 | no lock iff no row or no holder id; otherwise lock 1 with the grant time and holder |
| MySQLLockService.UsedLock | src/main/java/com/github/blagerweij/sessionlock/MySQLLockService.java:115-134 | a round-trip exception propagates; otherwise the row's lock description |
| MySQLLockService.TestSchemaLockName | src/main/java/com/github/blagerweij/sessionlock/MySQLLockService.java:50-54 | `test_schema` and `databasechangeloglock` give `TEST_SCHEMA.DATABASECHANGELOGLOCK` |
| MySQLLockService.LongSchemaNameNotTruncated | src/main/java/com/github/blagerweij/sessionlock/MySQLLockService.java:50-54 | an 86-character schema name gives a 108-character lock name: nothing is truncated |
| MariaDBLockService.Supports | src/main/java/com/github/blagerweij/sessionlock/MariaDBLockService.java:25-28 | accepted iff the database is MariaDB |
| MariaDBLockService.SupportedDatabasesNarrowMySQL | src/main/java/com/github/blagerweij/sessionlock/MariaDBLockService.java:25-28 | every MariaDB database is also accepted by the MySQL service; a MySQL database only by the MySQL service |
| MariaDBLockService.AcquireLock | src/main/java/com/github/blagerweij/sessionlock/MariaDBLockService.java:35-38 | behaves exactly as the MySQL service |
| MariaDBLockService.ReleaseLock | src/main/java/com/github/blagerweij/sessionlock/MariaDBLockService.java:45-48 | behaves exactly as the MySQL service |
| MariaDBLockService.UsedLock | src/main/java/com/github/blagerweij/sessionlock/MariaDBLockService.java:59-62 | behaves exactly as the MySQL service |
| PGLockService.IsAtLeastPostgres91 | src/main/java/com/github/blagerweij/sessionlock/PGLockService.java:61-69 | a failed version query means no; major above 9 yes, below 9 no; major 9 iff the minor is at least 1 |
| PGLockService.Supports | src/main/java/com/github/blagerweij/sessionlock/PGLockService.java:56-59 | accepted iff PostgreSQL 9.1 or later |
| PGLockService.LockId | src/main/java/com/github/blagerweij/sessionlock/PGLockService.java:71-78 | the two keys are the `int` hash codes of the table and the schema, in that order |
| PGLockService.CallsShareLockKey | src/main/java/com/github/blagerweij/sessionlock/PGLockService.java:92-143 | documents, by construction, that acquire, release and lock-info bind the same (table hash, schema hash) pair |
| PGLockService.AcquireOutcome | src/main/java/com/github/blagerweij/sessionlock/PGLockService.java:99 | never an error; acquired iff the answer is TRUE, so NULL counts as contention |
| PGLockService.ReleaseResult | src/main/java/com/github/blagerweij/sessionlock/PGLockService.java:115-118 | success iff TRUE; FALSE and NULL throw with `false` and `null` in the message |
| PGLockService.AcquireLock | src/main/java/com/github/blagerweij/sessionlock/PGLockService.java:92-101 | a round-trip exception propagates; otherwise true iff the answer is TRUE |
| PGLockService.ReleaseLock | src/main/java/com/github/blagerweij/sessionlock/PGLockService.java:108-120 | succeeds iff the round-trip answers TRUE |
| PGLockService.LockedBy | src/main/java/com/github/blagerweij/sessionlock/PGLockService.java:157-163 | `pid#<pid>` without a client host name; otherwise host and state |
| PGLockService.UsedLockOf | src/main/java/com/github/blagerweij/sessionlock/PGLockService.java:145-152 | no lock iff no row; otherwise lock 1 granted at the backend start, with the holder |
| PGLockService.UsedLock | src/main/java/com/github/blagerweij/sessionlock/PGLockService.java:138-155 | a round-trip exception propagates; otherwise the row's lock description |
| PGLockService.LockedByHostAndState | src/main/java/com/github/blagerweij/sessionlock/PGLockService.java:157-163 | a named client in state `testing` is described by host and state |
| PGLockService.LockedByPid | src/main/java/com/github/blagerweij/sessionlock/PGLockService.java:157-163 | an unnamed client with pid 123 is `pid#123` |
| PGLockService.PidIdentifiesHolder | src/main/java/com/github/blagerweij/sessionlock/PGLockService.java:157-163 | two host-less holders with the same description have the same pid |
| PGLockService.LockedByShowsHost | src/main/java/com/github/blagerweij/sessionlock/PGLockService.java:157-163 | a description ends in `)` iff the client has a host name, so `pid#` descriptions never coincide with host ones |
| PGLockService.AcquireThroughSession | src/main/java/com/github/blagerweij/sessionlock/PGLockService.java:92-101 | through `SessionLockService.acquireLock()`: the flag is set iff it was set or the server answered TRUE; an error iff unheld and the round-trip failed, surfaced, state kept |
| PGLockService.ReleaseThroughSession | src/main/java/com/github/blagerweij/sessionlock/PGLockService.java:108-120 | through `SessionLockService.releaseLock()`: the flag is always cleared; success iff TRUE; NULL fails with its message |
| PGLockService.ListThroughSession | src/main/java/com/github/blagerweij/sessionlock/PGLockService.java:138-155 | through `SessionLockService.listLocks()`: empty iff no row; otherwise lock 1 at the backend start with the holder |
| PGLockService.TestLockKey | src/main/java/com/github/blagerweij/sessionlock/PGLockService.java:71-78 | the keys for `test_schema`.`databasechangeloglock` are the hash codes 0xA6BFFB24 and 0xF0B205EE, as signed `int` |
| LegacyPGLockService.Supports | src/main/java/org/liquibase/lockservice/ext/PGLockService.java:43-58 | accepted iff PostgreSQL 9.1 or later |
| LegacyPGLockService.SameDatabasesAsPG | src/main/java/org/liquibase/lockservice/ext/PGLockService.java:43-58 | it accepts exactly the databases the two-key service accepts |
| LegacyPGLockService.LockId | src/main/java/org/liquibase/lockservice/ext/PGLockService.java:60-68 | the `long` key has the schema hash as its signed high half and the table hash as its low 32 bits; its sign is the schema hash's |
| LegacyPGLockService.LockIdInjective | src/main/java/org/liquibase/lockservice/ext/PGLockService.java:60-68 | equal keys mean equal schema hashes and equal table hashes |
| LegacyPGLockService.PacksPGKeys | src/main/java/org/liquibase/lockservice/ext/PGLockService.java:60-68 | the `long` key packs the two-key service's pair: schema hash in the high half, table hash in the low 32 bits |
| LegacyPGLockService.CallsShareLockKey | src/main/java/org/liquibase/lockservice/ext/PGLockService.java:81-104 | documents, by construction, that acquire and release bind the same `long` key, which fits a `long` |
| LegacyPGLockService.AcquireLock | src/main/java/org/liquibase/lockservice/ext/PGLockService.java:81-88 | a round-trip exception propagates; otherwise true iff the answer is TRUE |
| LegacyPGLockService.ReleaseLock | src/main/java/org/liquibase/lockservice/ext/PGLockService.java:94-104 | succeeds iff TRUE; FALSE and NULL throw with `false` and `null` in the message |
| LegacyPGLockService.AcquireThroughSession | src/main/java/org/liquibase/lockservice/ext/PGLockService.java:81-88 | through a base class assumed to behave like `SessionLockService.acquireLock()`: the flag is set iff it was set or the server answered TRUE; errors surfaced, state kept |
| LegacyPGLockService.ReleaseThroughSession | src/main/java/org/liquibase/lockservice/ext/PGLockService.java:94-104 | through a base class assumed to behave like `SessionLockService.releaseLock()`: the flag is always cleared; success iff TRUE |
| LegacyPGLockService.UsedLock | src/main/java/org/liquibase/lockservice/ext/PGLockService.java:118-124 | no lock description is available |
| LegacyPGLockService.ListsNoLocks | src/main/java/org/liquibase/lockservice/ext/PGLockService.java:118-124 | listLocks reports an empty array |
| LegacyPGLockService.TestLockKey | src/main/java/org/liquibase/lockservice/ext/PGLockService.java:60-68 | the key for `test_schema`.`databasechangeloglock` is 0xF0B205EEA6BFFB24 as a signed `long` |
| OracleLockService.Supports | src/main/java/com/github/blagerweij/sessionlock/OracleLockService.java:46-49 | accepted iff the database is Oracle |
| OracleLockService.EveryOperationAllocatesFirst | src/main/java/com/github/blagerweij/sessionlock/OracleLockService.java:51-113 | documents, by construction, that acquire, release and lock-info all start by allocating the upper-cased `SCHEMA.TABLE`, that acquire requests exclusive mode 6 with a 5-second timeout and that release releases the handle |
| OracleLockService.RequestOutcome | src/main/java/com/github/blagerweij/sessionlock/OracleLockService.java:87-99 | contended iff 1; errors iff 2 to 5, each with its own message naming the lock; every other code counts as acquired |
| OracleLockService.ReleaseResult | src/main/java/com/github/blagerweij/sessionlock/OracleLockService.java:115-122 | errors iff 3 to 5, each with its own message naming the lock; every other code succeeds |
| OracleLockService.AcquireLock | src/main/java/com/github/blagerweij/sessionlock/OracleLockService.java:76-101 | an allocation or request exception propagates; otherwise the request's outcome, with messages naming `SCHEMA.TABLE` |
| OracleLockService.ReleaseLock | src/main/java/com/github/blagerweij/sessionlock/OracleLockService.java:107-124 | exceptions propagate; success iff both calls answer and the code is not 3 to 5 |
| OracleLockService.LockId | src/main/java/com/github/blagerweij/sessionlock/OracleLockService.java:149-157 | the parsed first ten characters of the handle, or 1 when the handle is shorter or they do not parse |
| OracleLockService.LockIdOfHandle | src/main/java/com/github/blagerweij/sessionlock/OracleLockService.java:149-157 | a handle starting with a ten-digit `int` yields that number, whatever follows |
| OracleLockService.UsedLock | src/main/java/com/github/blagerweij/sessionlock/OracleLockService.java:147-166 | exceptions propagate; no row means no lock; a row gives the handle's id, the clock reading and the session description |
| OracleLockService.TestHandleLockId | src/main/java/com/github/blagerweij/sessionlock/OracleLockService.java:149-157 | handle `1073741824` gives lock id 1073741824 |
| OracleLockService.LockedByNamesInstance | src/main/java/com/github/blagerweij/sessionlock/OracleLockService.java:168-175 | the session description lists session id, user, instance name, OS user and host, in that order |
| OracleLockService.LockedByFields | src/main/java/com/github/blagerweij/sessionlock/OracleLockService.java:168-175 | every description opens with the session id field, closes with the host field, and is exactly the five fields long |
| OracleLockService.AcquireThroughSession | src/main/java/com/github/blagerweij/sessionlock/OracleLockService.java:76-101 | through `SessionLockService.acquireLock()`: the flag is set iff it was set or the request code is outside 1 to 5; code 1 is a plain refusal; a deadlock names `SCHEMA.TABLE`; exceptions surfaced, state kept |
| OracleLockService.ReleaseThroughSession | src/main/java/com/github/blagerweij/sessionlock/OracleLockService.java:107-124 | through `SessionLockService.releaseLock()`: the flag is always cleared; success iff both calls answered and the code is not 3 to 5 |
| OracleLockService.ListThroughSession | src/main/java/com/github/blagerweij/sessionlock/OracleLockService.java:147-166 | through `SessionLockService.listLocks()`: empty iff the allocation succeeded and no row came back; otherwise the current session under the handle's id, granted now |
| MSSQLLockService.Supports | src/main/java/com/github/blagerweij/sessionlock/MSSQLLockService.java:58-61 | accepted iff the database is SQL Server |
| MSSQLLockService.LockName | src/main/java/com/github/blagerweij/sessionlock/MSSQLLockService.java:63-65 | going through the null-tolerant `StringUtils.toUpperCase` yields the same name as the MySQL and Oracle services |
| MSSQLLockService.CallsShareResource | src/main/java/com/github/blagerweij/sessionlock/MSSQLLockService.java:88-137 | documents, by construction, that acquire and release bind the same resource, that lock-info searches for it between `%` wildcards and that acquire waits 5000 ms |
| MSSQLLockService.AcquireOutcome | src/main/java/com/github/blagerweij/sessionlock/MSSQLLockService.java:94-102 | errors iff NULL or -999; contended iff -1, -2 or -3; every other code counts as acquired |
| MSSQLLockService.ReleaseResult | src/main/java/com/github/blagerweij/sessionlock/MSSQLLockService.java:118-122 | success iff 0; otherwise an exception carrying "NULL" or the value |
| MSSQLLockService.AcquireLock | src/main/java/com/github/blagerweij/sessionlock/MSSQLLockService.java:87-104 | a round-trip exception propagates; otherwise the classified `int` value |
| MSSQLLockService.ReleaseLock | src/main/java/com/github/blagerweij/sessionlock/MSSQLLockService.java:113-124 | succeeds iff the round-trip answers 0 as `int` |
| MSSQLLockService.LockedBy | src/main/java/com/github/blagerweij/sessionlock/MSSQLLockService.java:152-158 | host and status when there is a host name; without one, reading the unselected `spid` column throws an SQLException |
| MSSQLLockService.UsedLockOf | src/main/java/com/github/blagerweij/sessionlock/MSSQLLockService.java:139-148 | no row means no lock; a row with a host gives lock 1 at the login time; without a host it throws |
| MSSQLLockService.UsedLock | src/main/java/com/github/blagerweij/sessionlock/MSSQLLockService.java:134-150 | a round-trip exception propagates; otherwise the row's result |
| MSSQLLockService.LockedByShowsHost | src/main/java/com/github/blagerweij/sessionlock/MSSQLLockService.java:152-158 | a description of a row with a host starts with the host name, ends in `)` and is the host plus the status plus three characters long |
| MSSQLLockService.AcquireThroughSession | src/main/java/com/github/blagerweij/sessionlock/MSSQLLockService.java:87-104 | through `SessionLockService.acquireLock()`: the flag is set iff it was set or the code is neither NULL, -999 nor -1 to -3; -1 to -3 are a plain refusal; errors surfaced, state kept |
| MSSQLLockService.ReleaseThroughSession | src/main/java/com/github/blagerweij/sessionlock/MSSQLLockService.java:113-124 | through `SessionLockService.releaseLock()`: the flag is always cleared; success iff the code is 0 |
| MSSQLLockService.ListThroughSession | src/main/java/com/github/blagerweij/sessionlock/MSSQLLockService.java:134-150 | through `SessionLockService.listLocks()`: empty iff no row; a host-less row fails with the driver's SQLException as the LockException's cause; otherwise lock 1 at the login date, described by host and status |
| H2LockService.Supports | src/main/java/com/github/blagerweij/sessionlock/H2LockService.java:39-42 | accepted iff the database is H2 |
| H2LockService.AcquireLock | src/main/java/com/github/blagerweij/sessionlock/H2LockService.java:63-77 | true iff the update counts 0 rows; an SQLException from the update is contention; other exceptions propagate |
| H2LockService.UpdateFailuresAreContention | src/main/java/com/github/blagerweij/sessionlock/H2LockService.java:67-75 | no SQLException from the update ever leaves acquireLock |
| H2LockService.ReleaseResult | src/main/java/com/github/blagerweij/sessionlock/H2LockService.java:87-90 | success iff 0 rows; otherwise the advisory-unlock message with `false` |
| H2LockService.ReleaseLock | src/main/java/com/github/blagerweij/sessionlock/H2LockService.java:83-92 | update exceptions propagate; success iff the update counts 0 rows |
| H2LockService.AcquireThroughSession | src/main/java/com/github/blagerweij/sessionlock/H2LockService.java:63-77 | through `SessionLockService.acquireLock()`: the flag is set iff it was set or the update counted 0 rows; an update SQLException is a plain refusal; after a successful preparation only an unchecked update exception escapes, unchanged |
| H2LockService.ReleaseThroughSession | src/main/java/com/github/blagerweij/sessionlock/H2LockService.java:83-92 | through `SessionLockService.releaseLock()`: the flag is always cleared; success iff the update counted 0 rows |
| H2LockService.UsedLock | src/main/java/com/github/blagerweij/sessionlock/H2LockService.java:110-113 | always an unchecked `Unsupported` exception |
| H2LockService.ListLocksUnsupported | src/main/java/com/github/blagerweij/sessionlock/H2LockService.java:110-113 | listLocks passes the unchecked exception through unwrapped |
| LockServices.Supporters | src/main/java/com/github/blagerweij/sessionlock/SessionLockService.java:66-70 | a service is listed iff its `supports` accepts the database |
| LockServices.SupportersByDatabase | src/main/java/com/github/blagerweij/sessionlock/MariaDBLockService.java:25-28 | MariaDB is accepted by both MySQL-family services, PostgreSQL 9.1+ by both PostgreSQL services, older PostgreSQL and other databases by none, each remaining kind by exactly one |
| LockServices.PrioritiesTie | src/main/java/com/github/blagerweij/sessionlock/SessionLockService.java:50-54 | every service reports the same priority; for the legacy PostgreSQL service this rests on the base-class assumption under Left out |

## Left out

- JDBC plumbing is not modelled: statements, `getConnection`, the `Not a JdbcConnection` error, result-set cursors and resource closing. A backend round-trip is an input of the model.
- Logging is left out; it has no effect on results.
- The clock is a parameter of the model.
- `Thread.sleep` is reduced to whether its argument is negative (an IllegalArgumentException). Interruption is left out.
- `DateFormat` is a parameter of the model.
- A null default schema name is left out; the lock name and key are modelled for a non-null schema.
- Null `backend_start` and `login_time` values are left out; a grant time is a number. (A NULL `TIME` reads as 0 through `getInt` and is modelled.)
- The `(Boolean)` and `(Number)` casts of an unexpected column type, which throw ClassCastException, are left out.
- A null Oracle lock handle (`lockHandle.length()` throws) is left out; the handle is a string.
- H2's `getChangeLogLockId` and `lockedBy` are never called, so they are not modelled.
- How Liquibase picks a lock service is not modelled; `LockServices` only states who supports what and the priorities.
- Concurrency between sessions is the database's business and is not modelled.
- `setChangeLogLockWaitTime`, `setChangeLogLockRecheckTime`, `setDatabase` and `hasChangeLogLock` are plain setters and getters. They are parameters or fields of the model.
- LegacyPGLockService: the legacy service extends `org.liquibase.lockservice.ext.SessionLockService`, which is not part of this model. `AcquireThroughSession` and `ReleaseThroughSession` assume it behaves like `com.github.blagerweij.sessionlock.SessionLockService`. Its test covers the acquire flag, a refused acquire, an SQLException wrapped with its cause and an empty lock list. The test does not show that a failed release clears the flag.
- LockServices.PrioritiesTie: the legacy PostgreSQL service's priority comes from the same legacy base class. It is assumed to be `PRIORITY_DEFAULT + 1`, as in the current base class; its test only shows that it exceeds `PRIORITY_DEFAULT`.
- StringUtils.Truncate: where the cut splits a surrogate pair Java keeps a lone high surrogate, which a Dafny string cannot hold; the model drops it, so the result is one unit shorter than `maxlength` there.
- LockModel.LockName: the length `|schema| + |table| + 1` holds only under the ASCII case map; with Java's full case map a name can grow (e.g. `ß` becomes `SS`).
- StringUtils.Upper: upper-cases ASCII letters only. Java's `toUpperCase(Locale.ROOT)` maps all of Unicode and can change a string's length (e.g. `ß` becomes `SS`).
- JavaLang.ParseInt: accepts ASCII digits only. Java's `Integer.parseInt` also accepts other Unicode decimal digits.
- SessionLockService.WaitForLock: the clock readings are a given sequence that eventually reaches the deadline. The model does not show that time advances.
- MySQLLockService.IntegerResult: `intValue()` is modelled for integral values; a fractional `Number` is left out.

Code and accompanying tests disagree in a few places. In each case the model follows the code:
- MySQL does not truncate lock names to 64 characters (`MySQLLockService.LongSchemaNameNotTruncated`).
- Oracle's holder description includes the instance name (`OracleLockService.LockedByNamesInstance`).
- Oracle treats return code 0, and any code outside 1–5, as acquired (`OracleLockService.RequestOutcome`).
- The legacy PostgreSQL service binds a single `long` key, not two `int` keys (`LegacyPGLockService.CallsShareLockKey`).
- `waitForLock` measures the wait time in minutes (`SessionLockService.Deadline`).
