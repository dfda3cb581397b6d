/**
 * The lock services side by side: which Liquibase databases each one accepts. The six
 * services of package `com.github.blagerweij.sessionlock` inherit `getPriority()` from
 * that package's `SessionLockService`. The legacy `org.liquibase.lockservice.ext`
 * `PGLockService` inherits it from `org.liquibase.lockservice.ext.SessionLockService`,
 * which is not part of this model and is taken to compute the same priority. So all
 * seven rank equally among themselves and above Liquibase's default service.
 */
module LockServices {
  import opened JavaLang
  import opened LockModel
  import Session = SessionLockService
  import MySQL = MySQLLockService
  import MariaDB = MariaDBLockService
  import PG = PGLockService
  import LegacyPG = LegacyPGLockService
  import Oracle = OracleLockService
  import MSSQL = MSSQLLockService
  import H2 = H2LockService

  datatype Service = MySQLService | MariaDBService | PGService | LegacyPGService
                   | OracleService | MSSQLService | H2Service

  const AllServices: seq<Service> :=
    [MySQLService, MariaDBService, PGService, LegacyPGService, OracleService, MSSQLService, H2Service]

  /** Each service's `supports`. */
  function Supports(svc: Service, db: Database): bool
  {
    match svc
    case MySQLService => MySQL.Supports(db)
    case MariaDBService => MariaDB.Supports(db)
    case PGService => PG.Supports(db)
    case LegacyPGService => LegacyPG.Supports(db)
    case OracleService => Oracle.Supports(db)
    case MSSQLService => MSSQL.Supports(db)
    case H2Service => H2.Supports(db)
  }

  /** The services, in the order above, that accept `db`. */
  function Supporters(db: Database): (r: seq<Service>)
    ensures forall svc :: svc in r <==> Supports(svc, db)
  {
    (if MySQL.Supports(db) then [MySQLService] else [])
    + (if MariaDB.Supports(db) then [MariaDBService] else [])
    + (if PG.Supports(db) then [PGService] else [])
    + (if LegacyPG.Supports(db) then [LegacyPGService] else [])
    + (if Oracle.Supports(db) then [OracleService] else [])
    + (if MSSQL.Supports(db) then [MSSQLService] else [])
    + (if H2.Supports(db) then [H2Service] else [])
  }

  /** Who accepts which database: a MariaDB database is accepted by both MySQL-family
      services, PostgreSQL 9.1 or later by both PostgreSQL services, every other kind
      by at most one service. */
  lemma SupportersByDatabase(db: Database)
    ensures db.MySQLDatabase? ==> Supporters(db) == [MySQLService]
    ensures db.MariaDBDatabase? ==> Supporters(db) == [MySQLService, MariaDBService]
    ensures PG.Supports(db) ==> Supporters(db) == [PGService, LegacyPGService]
    ensures db.PostgresDatabase? && !PG.Supports(db) ==> Supporters(db) == []
    ensures db.OracleDatabase? ==> Supporters(db) == [OracleService]
    ensures db.MSSQLDatabase? ==> Supporters(db) == [MSSQLService]
    ensures db.H2Database? ==> Supporters(db) == [H2Service]
    ensures db.OtherDatabase? ==> Supporters(db) == []
  {
    LegacyPG.SameDatabasesAsPG(db);
  }

  /** `getPriority()`: the same value for every service, one above the default (for the
      legacy PostgreSQL service, under the assumption stated at the head of this module). */
  function Priority(svc: Service, priorityDefault: int): (p: int)
    requires IsInt(priorityDefault)
    ensures priorityDefault < MAX_INT ==> p == priorityDefault + 1
  {
    Session.GetPriority(priorityDefault)
  }

  /** No service outranks another. */
  lemma PrioritiesTie(a: Service, b: Service, priorityDefault: int)
    requires IsInt(priorityDefault)
    ensures Priority(a, priorityDefault) == Priority(b, priorityDefault)
  {
  }
}
