/**
 * `SessionLockService`: the backend-independent state machine every lock service
 * inherits. It remembers whether this process holds the change-log lock, delegates
 * the actual locking to a backend, and turns the backend's SQLExceptions into
 * LockExceptions.
 *
 * A backend call is an abstract input here: the value the backend's
 * `acquireLock(Connection)`, `releaseLock(Connection)` or `usedLock(Connection)`
 * returned, or the exception it threw.
 */
module SessionLockService {
  import opened JavaLang
  import opened LockModel

  /** The service's only state: the `hasChangeLogLock` flag. */
  datatype Session = Session(hasChangeLogLock: bool)

  /** The state after an operation, and what the operation returned or threw. */
  datatype Step<T> = Step(session: Session, result: Result<T>)

  /** A freshly constructed service does not hold the lock. */
  const Initial: Session := Session(false)

  /** `catch (SQLException e) { throw new LockException(e); }`: SQLExceptions leave the
      service wrapped in a LockException whose cause is exactly the SQLException; every
      other exception passes through untouched. */
  function Surface(e: Exception): (r: Exception)
    ensures e.SQLException? ==> r == LockExceptionCausedBy(e)
    ensures !e.SQLException? ==> r == e
    ensures !r.SQLException?
  {
    if e.SQLException? then LockExceptionCausedBy(e) else e
  }

  /** `getPriority()` given Liquibase's `PRIORITY_DEFAULT`, in Java `int` arithmetic. */
  function GetPriority(priorityDefault: int): (p: int)
    requires IsInt(priorityDefault)
    ensures IsInt(p)
    ensures priorityDefault < MAX_INT ==> p == priorityDefault + 1 && p > priorityDefault
    ensures priorityDefault == MAX_INT ==> p == MIN_INT
  {
    WrapInt(priorityDefault + 1)
  }

  /** The base class's `supports`: no database, so only the subclasses are ever selected. */
  function Supports(db: Database): (r: bool)
    ensures !r
  {
    false
  }

  /** `init()`: forget any lock without talking to the database. */
  function Init(s: Session): (r: Session)
    ensures !r.hasChangeLogLock
  {
    Session(false)
  }

  /** `reset()`: as `init()`. */
  function Reset(s: Session): (r: Session)
    ensures r == Init(s) && r == Initial
  {
    Session(false)
  }

  /** `destroy()`: `reset()`. */
  function Destroy(s: Session): (r: Session)
    ensures r == Reset(s) && !r.hasChangeLogLock
  {
    Reset(s)
  }

  /** `acquireLock()`. `backend` is what the backend's `acquireLock(Connection)` would
      return or throw; it is not consulted when the flag is already set. */
  function AcquireLock(s: Session, backend: Result<bool>): (r: Step<bool>)
    // already held: true, without asking the backend
    ensures s.hasChangeLogLock ==> r == Step(s, Ok(true))
    // the backend granted the lock: the flag is set and true is returned
    ensures !s.hasChangeLogLock && backend == Ok(true) ==> r == Step(Session(true), Ok(true))
    // contention: false, state unchanged
    ensures !s.hasChangeLogLock && backend == Ok(false) ==> r == Step(s, Ok(false))
    // failure: the exception surfaces, state unchanged
    ensures !s.hasChangeLogLock && backend.Err? ==> r == Step(s, Err(Surface(backend.error)))
    // the flag is set afterwards exactly when true is returned
    ensures r.session.hasChangeLogLock <==> r.result == Ok(true)
  {
    if s.hasChangeLogLock then Step(s, Ok(true))
    else
      match backend
      case Ok(true) => Step(Session(true), Ok(true))
      case Ok(false) => Step(s, Ok(false))
      case Err(e) => Step(s, Err(Surface(e)))
  }

  /** While the flag is set, `acquireLock()` answers the same whatever the backend would. */
  lemma AcquireLockShortCircuits(s: Session, b1: Result<bool>, b2: Result<bool>)
    requires s.hasChangeLogLock
    ensures AcquireLock(s, b1) == AcquireLock(s, b2) == Step(s, Ok(true))
  {
  }

  /** `releaseLock()`. Whatever the backend's `releaseLock(Connection)` does, the flag
      is cleared (the `finally` block); a backend exception still reaches the caller. */
  function ReleaseLock(s: Session, backend: Result<()>): (r: Step<()>)
    ensures !r.session.hasChangeLogLock
    ensures r.result.Ok? <==> backend.Ok?
    ensures backend.Err? ==> r.result.error == Surface(backend.error)
  {
    match backend
    case Ok(_) => Step(Session(false), Ok(()))
    case Err(e) => Step(Session(false), Err(Surface(e)))
  }

  /** `forceReleaseLock()`: `init()` then `releaseLock()`; the previous state is irrelevant. */
  function ForceReleaseLock(s: Session, backend: Result<()>): (r: Step<()>)
    ensures r == ReleaseLock(Initial, backend)
    ensures !r.session.hasChangeLogLock
    ensures r.result.Ok? <==> backend.Ok?
  {
    ReleaseLock(Init(s), backend)
  }

  /** Acquiring then releasing returns the service to the unlocked state, whatever the
      backend answers to the release. */
  lemma AcquireReleaseRoundTrip(release: Result<()>)
    ensures var acquired := AcquireLock(Initial, Ok(true));
      && acquired == Step(Session(true), Ok(true))
      && ReleaseLock(acquired.session, release).session == Initial
  {
  }

  /** `listLocks()`. `usedLock` is what the backend's `usedLock(Connection)` returned
      (null is `None`) or threw. */
  function ListLocks(usedLock: Result<Option<LockInfo>>): (r: Result<seq<LockInfo>>)
    ensures r.Ok? <==> usedLock.Ok?
    ensures r.Ok? ==> |r.value| <= 1
    ensures usedLock == Ok(None) ==> r == Ok([])
    ensures forall l :: usedLock == Ok(Some(l)) ==> r == Ok([l])
    ensures usedLock.Err? ==> r.error == Surface(usedLock.error)
  {
    match usedLock
    case Err(e) => Err(Surface(e))
    case Ok(None) => Ok([])
    case Ok(Some(l)) => Ok([l])
  }

  // ---------------------------------------------------------------------------
  // waitForLock

  /** The moment `waitForLock` gives up: `start + waitMinutes * 1000 * 60` in Java
      `long` arithmetic. The wait time is in minutes. */
  function Deadline(start: int, waitMinutes: int): (d: int)
    requires IsLong(start) && IsLong(waitMinutes)
    ensures IsLong(d)
    ensures IsLong(waitMinutes * 60000) && IsLong(start + waitMinutes * 60000) ==>
              d == start + waitMinutes * 60000
  {
    DeadlineNoOverflow(start, waitMinutes);
    WrapLong(start + WrapLong(WrapLong(waitMinutes * 1000) * 60))
  }

  lemma DeadlineNoOverflow(start: int, waitMinutes: int)
    ensures IsLong(waitMinutes * 60000) && IsLong(start + waitMinutes * 60000) ==>
              WrapLong(start + WrapLong(WrapLong(waitMinutes * 1000) * 60)) == start + waitMinutes * 60000
  {
    if IsLong(waitMinutes * 60000) && IsLong(start + waitMinutes * 60000) {
      assert waitMinutes * 60000 == (waitMinutes * 1000) * 60;
      if waitMinutes >= 0 {
        assert 0 <= waitMinutes * 1000 <= waitMinutes * 60000;
      } else {
        assert waitMinutes * 60000 <= waitMinutes * 1000 < 0;
      }
    }
  }

  /** `Thread.sleep(recheckSeconds * 1000)` throws IllegalArgumentException for a negative
      duration (computed in `long` arithmetic). */
  predicate SleepFails(recheckSeconds: int)
  {
    WrapLong(recheckSeconds * 1000) < 0
  }

  /** One turn of the polling loop: the clock reading taken by the loop condition, and
      what the backend would answer to the `acquireLock()` that follows it. */
  datatype Poll = Poll(now: int, reply: Result<bool>)

  /** The first `n` polls were all taken before the deadline and all found the lock
      held by another session. */
  predicate ContendedThrough(polls: seq<Poll>, deadline: int, n: int)
    requires 0 <= n <= |polls|
  {
    forall i :: 0 <= i < n ==> polls[i].now < deadline && polls[i].reply == Ok(false)
  }

  /** The loop gets as far as poll `i`: it is the first one, or every earlier one was a
      contended attempt followed by a sleep. */
  predicate Reaches(s: Session, polls: seq<Poll>, deadline: int, sleepFails: bool, i: int)
    requires 0 <= i <= |polls|
  {
    i == 0 || (!s.hasChangeLogLock && !sleepFails && ContendedThrough(polls, deadline, i))
  }

  /** The holder description in the give-up message. */
  function HolderText(locks: seq<LockInfo>, formatDate: int -> string): string
  {
    if |locks| > 0 then locks[0].lockedBy + " since " + formatDate(locks[0].granted)
    else "UNKNOWN"
  }

  /** The exception `waitForLock` throws once the deadline has passed. */
  function GiveUp(listed: Result<seq<LockInfo>>, formatDate: int -> string): (r: Result<()>)
    ensures r.Err?
    ensures listed.Ok? ==> r.error == LockException(
      "Could not acquire change log lock.  Currently locked by " + HolderText(listed.value, formatDate))
    ensures listed.Err? ==> r.error == listed.error
  {
    match listed
    case Err(e) => Err(e)
    case Ok(locks) =>
      Err(LockException("Could not acquire change log lock.  Currently locked by "
                        + HolderText(locks, formatDate)))
  }

  /** Some poll from `i` on is taken at or after the deadline: the loop ends. */
  predicate DeadlineReached(polls: seq<Poll>, deadline: int, i: int)
  {
    exists k :: i <= k < |polls| && 0 <= k && polls[k].now >= deadline
  }

  /** What `waitForLock()` does from poll `i` on, one attempt at a time: the reference
      the loop below is held to. */
  function WaitFrom(s: Session, polls: seq<Poll>, deadline: int, sleepFails: bool,
                    usedLock: Result<Option<LockInfo>>, formatDate: int -> string, i: nat)
    : (r: Step<()>)
    requires i <= |polls| && DeadlineReached(polls, deadline, i)
    ensures r.result.Ok? ==> r.session.hasChangeLogLock
    ensures r.result.Err? ==> r.session == s
    decreases |polls| - i
  {
    if polls[i].now >= deadline then Step(s, GiveUp(ListLocks(usedLock), formatDate))
    else
      var step := AcquireLock(s, polls[i].reply);
      if step.result.Err? then Step(s, Err(step.result.error))
      else if step.result.value then Step(step.session, Ok(()))
      else if sleepFails then Step(step.session, Err(RuntimeException("IllegalArgumentException")))
      else WaitFrom(step.session, polls, deadline, sleepFails, usedLock, formatDate, i + 1)
  }

  /** The outcomes of waiting, attempt by attempt: the first attempt that is not refused
      decides, the first poll at or after the deadline gives up naming the holder, and a
      refusal followed by a negative sleep duration throws. It returns normally only
      holding the lock, after a granted attempt or with the flag already set. */
  lemma {:induction false} WaitOutcomes(s: Session, polls: seq<Poll>, deadline: int, sleepFails: bool,
                                        usedLock: Result<Option<LockInfo>>, formatDate: int -> string)
    requires DeadlineReached(polls, deadline, 0)
    ensures var r := WaitFrom(s, polls, deadline, sleepFails, usedLock, formatDate, 0);
      && (r.result.Ok? ==>
            (s.hasChangeLogLock ||
             exists i :: 0 <= i < |polls| && polls[i].now < deadline && polls[i].reply == Ok(true)))
      && (s.hasChangeLogLock && polls[0].now < deadline ==> r == Step(s, Ok(())))
      && (forall i :: 0 <= i < |polls| && Reaches(s, polls, deadline, sleepFails, i) ==>
            (polls[i].now >= deadline ==> r == Step(s, GiveUp(ListLocks(usedLock), formatDate))) &&
            (!s.hasChangeLogLock && polls[i].now < deadline && polls[i].reply == Ok(true) ==>
               r == Step(Session(true), Ok(()))) &&
            (!s.hasChangeLogLock && polls[i].now < deadline && polls[i].reply.Err? ==>
               r == Step(s, Err(Surface(polls[i].reply.error)))) &&
            (!s.hasChangeLogLock && sleepFails && polls[i].now < deadline && polls[i].reply == Ok(false) ==>
               r == Step(s, Err(RuntimeException("IllegalArgumentException")))))
  {
    if !s.hasChangeLogLock {
      WaitUnlocked(s, polls, deadline, sleepFails, usedLock, formatDate, 0);
    }
  }

  /** `WaitOutcomes` for an unlocked session, from any poll the loop reaches. */
  lemma {:induction false} WaitUnlocked(s: Session, polls: seq<Poll>, deadline: int, sleepFails: bool,
                                        usedLock: Result<Option<LockInfo>>, formatDate: int -> string, j: nat)
    requires !s.hasChangeLogLock && j <= |polls| && DeadlineReached(polls, deadline, j)
    requires Reaches(s, polls, deadline, sleepFails, j)
    ensures var r := WaitFrom(s, polls, deadline, sleepFails, usedLock, formatDate, j);
      && r == WaitFrom(s, polls, deadline, sleepFails, usedLock, formatDate, 0)
      && (r.result.Ok? ==>
            exists i :: j <= i < |polls| && polls[i].now < deadline && polls[i].reply == Ok(true))
      && (forall i :: j <= i < |polls| && Reaches(s, polls, deadline, sleepFails, i) ==>
            (polls[i].now >= deadline ==> r == Step(s, GiveUp(ListLocks(usedLock), formatDate))) &&
            (polls[i].now < deadline && polls[i].reply == Ok(true) ==> r == Step(Session(true), Ok(()))) &&
            (polls[i].now < deadline && polls[i].reply.Err? ==>
               r == Step(s, Err(Surface(polls[i].reply.error)))) &&
            (sleepFails && polls[i].now < deadline && polls[i].reply == Ok(false) ==>
               r == Step(s, Err(RuntimeException("IllegalArgumentException")))))
    decreases |polls| - j
  {
    if j > 0 {
      WaitPrefix(s, polls, deadline, sleepFails, usedLock, formatDate, j);
    }
    if polls[j].now < deadline && polls[j].reply == Ok(false) && !sleepFails {
      assert Reaches(s, polls, deadline, sleepFails, j + 1);
      WaitUnlocked(s, polls, deadline, sleepFails, usedLock, formatDate, j + 1);
    }
  }

  /** Contended polls before `j` are skipped over: waiting from `j` is waiting from 0. */
  lemma {:induction false} WaitPrefix(s: Session, polls: seq<Poll>, deadline: int, sleepFails: bool,
                                      usedLock: Result<Option<LockInfo>>, formatDate: int -> string, j: nat)
    requires !s.hasChangeLogLock && !sleepFails && j <= |polls| && DeadlineReached(polls, deadline, j)
    requires ContendedThrough(polls, deadline, j)
    ensures WaitFrom(s, polls, deadline, sleepFails, usedLock, formatDate, j)
            == WaitFrom(s, polls, deadline, sleepFails, usedLock, formatDate, 0)
    decreases j
  {
    if j > 0 {
      assert polls[j - 1].now < deadline;
      WaitPrefix(s, polls, deadline, sleepFails, usedLock, formatDate, j - 1);
    }
  }

  /** `waitForLock()`: call `acquireLock()` until it returns true or the clock reaches
      `start + waitMinutes` minutes, sleeping `recheckSeconds` after each refusal.
      `polls[i]` is the clock reading before attempt `i` and the backend's answer to it;
      some reading reaches the deadline. `usedLock` is the backend's answer to the
      `listLocks()` made on giving up; `formatDate` is the SHORT/SHORT date format. */
  method WaitForLock(s: Session, waitMinutes: int, recheckSeconds: int, start: int,
                     polls: seq<Poll>, usedLock: Result<Option<LockInfo>>,
                     formatDate: int -> string)
    returns (r: Step<()>)
    requires IsLong(waitMinutes) && IsLong(recheckSeconds) && IsLong(start)
    requires DeadlineReached(polls, Deadline(start, waitMinutes), 0)
    ensures r == WaitFrom(s, polls, Deadline(start, waitMinutes), SleepFails(recheckSeconds),
                          usedLock, formatDate, 0)
    ensures r.result.Ok? ==> r.session.hasChangeLogLock
    ensures r.result.Err? ==> r.session == s
  {
    var deadline := Deadline(start, waitMinutes);
    var sleepFails := SleepFails(recheckSeconds);
    ghost var k :| 0 <= k < |polls| && polls[k].now >= deadline;
    ghost var target := WaitFrom(s, polls, deadline, sleepFails, usedLock, formatDate, 0);
    var session := s;
    var locked := false;
    var i := 0;
    while !locked && polls[i].now < deadline
      invariant 0 <= i <= k
      invariant !locked ==> WaitFrom(session, polls, deadline, sleepFails, usedLock, formatDate, i) == target
      invariant locked ==> target == Step(session, Ok(()))
      invariant session == s || session == Session(true)
      decreases |polls| - i, !locked
    {
      var step := AcquireLock(session, polls[i].reply);
      if step.result.Err? {
        return Step(session, Err(step.result.error));
      }
      session := step.session;
      locked := step.result.value;
      if !locked && sleepFails {
        return Step(session, Err(RuntimeException("IllegalArgumentException")));
      }
      if !locked {
        i := i + 1;
      }
    }
    if !locked {
      return Step(session, GiveUp(ListLocks(usedLock), formatDate));
    }
    return Step(session, Ok(()));
  }
}
