/** `RedissonLockFacade.reserveWithLock`: derive the ticket's lock key, try to
    take the lock, run the business reservation once while holding it, and
    release the lock in a `finally` block only if this thread still holds it.
    The business call (`TicketingService.reserve`) is a parameter, so the
    facade is proved for every service behaviour. */
module LockFacade {
  import opened Wrappers
  import opened Exceptions
  import opened JavaLong
  import opened Decimal
  import opened RedisLock

  const LOCK_KEY_PREFIX: string := "lock:ticket:"

  /** Message of the congestion failure ("too many people waiting, try again"). */
  const TOO_MANY_WAITERS: string := "현재 대기자가 너무 많습니다. 다시 시도해주세요."
  /** Message of the interrupted-wait failure ("a server error occurred"). */
  const SERVER_ERROR: string := "서버 오류가 발생했습니다."

  const CongestedError: Exception := Runtime(TOO_MANY_WAITERS)
  const ServerError: Exception := Runtime(SERVER_ERROR)

  /** How Java writes a `Long` into a string: `null` or its decimal text. */
  function NullableLongText(id: Option<Long>): (s: string)
    ensures s == "null" <==> id.None?
    ensures id.Some? ==> ParseLong(s) == Some(id.value as int)
  {
    match id
    case None => "null"
    case Some(n) =>
      ParseLongText(n);
      var text := LongText(n);
      assert text[0] != 'n';
      text
  }

  /** The lock key of a ticket: `"lock:ticket:" + ticketId`. */
  function LockKey(ticketId: Option<Long>): (k: string)
    ensures |LOCK_KEY_PREFIX| < |k| && k[..|LOCK_KEY_PREFIX|] == LOCK_KEY_PREFIX
  {
    LOCK_KEY_PREFIX + NullableLongText(ticketId)
  }

  /** Recovers the ticket id a lock key was made from, if it is one. */
  function TicketIdOfKey(k: string): Option<Option<Long>> {
    if |k| < |LOCK_KEY_PREFIX| || k[..|LOCK_KEY_PREFIX|] != LOCK_KEY_PREFIX then None
    else
      var rest := k[|LOCK_KEY_PREFIX|..];
      if rest == "null" then Some(None)
      else
        match ParseLong(rest)
        case Some(n) => if LONG_MIN <= n <= LONG_MAX then Some(Some(n)) else None
        case None => None
  }

  /** The key determines the ticket it was made from. */
  lemma LockKeyRoundTrip(ticketId: Option<Long>)
    ensures TicketIdOfKey(LockKey(ticketId)) == Some(ticketId)
  {
  }

  /** Two tickets share a lock exactly when they have the same id. */
  lemma LockKeyInjective(a: Option<Long>, b: Option<Long>)
    ensures LockKey(a) == LockKey(b) <==> a == b
  {
  }

  /** The arguments of `reserveWithLock`, passed on unchanged to the service. */
  datatype Request = Request(ticketId: Option<Long>, userId: string, userName: string)

  /** What the business call does to its store of type `S` and what it returns
      (a booking of type `B`) or throws. */
  datatype ServiceReturn<S, B> = ServiceReturn(store: S, result: Result<B, Exception>)

  /** The calling thread and the timing events the environment chooses. */
  datatype Env = Env(thread: ThreadId, wait: WaitEvent, lease: LeaseEvent)

  /** One business call: its arguments and the lock state when it began. */
  datatype Invocation = Invocation(request: Request, lock: LockState)

  /** What the finally block leaves: the lock, whether it unlocked, and the
      exception `unlock` threw, if any. */
  datatype FinallyStep = FinallyStep(lock: LockState, released: bool, thrown: Option<Exception>)

  /** `if (lock.isLocked() && lock.isHeldByCurrentThread()) lock.unlock();` */
  function Finally(l: LockState, t: ThreadId): (f: FinallyStep)
    ensures f.thrown.None?
    ensures f.released <==> IsHeldByThread(l, t)
    ensures !f.released ==> f.lock == l
    ensures f.released ==> Unlock(l, t) == Success(f.lock)
  {
    if IsLocked(l) && IsHeldByThread(l, t) then
      match Unlock(l, t)
      case Success(l') => FinallyStep(l', true, None)
      case Failure(e) => FinallyStep(l, false, Some(e))
    else FinallyStep(l, false, None)
  }

  /** Java's try/finally: an exception from the finally block replaces what
      the try block returned or threw. */
  function Rethrow<B>(body: Result<B, Exception>, thrown: Option<Exception>): (r: Result<B, Exception>)
    ensures thrown.None? ==> r == body
    ensures thrown.Some? ==> r == Failure(thrown.value)
    ensures r.Success? ==> thrown.None?
  {
    match thrown
    case None => body
    case Some(e) => Failure(e)
  }

  /** The guarded finally block never replaces what the try block returned
      or threw. */
  lemma FinallyKeepsTryResult<B>(body: Result<B, Exception>, l: LockState, t: ThreadId)
    ensures Rethrow(body, Finally(l, t).thrown) == body
  {
  }

  /** Everything one call of `reserveWithLock` did. */
  datatype Attempt<S, B> = Attempt(
    outcome: Result<B, Exception>,
    store: S,
    locks: LockTable,
    tryLock: TryLockResult,
    invocations: seq<Invocation>,
    lockAtFinally: LockState,
    released: bool)

  /** `reserveWithLock(ticketId, userId, userName)` run by `env.thread`, with
      `locks` the lock table before the call. */
  function ReserveWithLock<S, B>(
    locks: LockTable, store: S, service: (S, Request) -> ServiceReturn<S, B>, env: Env, req: Request)
    : (a: Attempt<S, B>)
    // the business call runs at most once, exactly when the lock was acquired,
    // with the caller's arguments, and only while this thread holds the lock
    ensures |a.invocations| <= 1
    ensures |a.invocations| == 1 <==> a.tryLock == Acquired
    ensures forall i :: 0 <= i < |a.invocations| ==>
              && a.invocations[i].request == req
              && IsHeldByThread(a.invocations[i].lock, env.thread)
    // each exit path has its own outcome
    ensures a.tryLock == NotAcquired ==> a.outcome == Failure(CongestedError) && a.store == store
    ensures a.tryLock == Interrupted ==> a.outcome == Failure(ServerError) && a.store == store
    // when acquired, the service's result is passed on, except that an
    // InterruptedException it throws is caught like an interrupted wait
    ensures a.tryLock == Acquired ==>
              && a.store == service(store, req).store
              && (service(store, req).result == Failure(InterruptedException) ==> a.outcome == Failure(ServerError))
              && (service(store, req).result != Failure(InterruptedException) ==> a.outcome == service(store, req).result)
    // tryLock was asked about this ticket's lock
    ensures var l := LockOf(locks, LockKey(req.ticketId));
            !IsLocked(l) || IsHeldByThread(l, env.thread) ==> a.tryLock == Acquired
    ensures var l := LockOf(locks, LockKey(req.ticketId));
            IsLocked(l) && !IsHeldByThread(l, env.thread) ==>
              && (a.tryLock == Acquired <==> env.wait == ReleasedInTime)
              && (a.tryLock == Interrupted <==> env.wait == InterruptedWhileWaiting)
    // the lock the finally block sees: this thread's after tryLock, then
    // subject to the lease; untouched when tryLock failed
    ensures var l := LockOf(locks, LockKey(req.ticketId));
            a.lockAtFinally == if a.tryLock == Acquired
                               then Lease(TryLock(l, env.thread, env.wait).lock, env.lease)
                               else l
    // the finally block unlocks exactly when this thread holds the lock, and
    // otherwise leaves the lock, possibly another holder's, as it found it
    ensures a.released <==> IsHeldByThread(a.lockAtFinally, env.thread)
    ensures !a.released ==> LockOf(a.locks, LockKey(req.ticketId)) == a.lockAtFinally
    ensures a.released ==> Unlock(a.lockAtFinally, env.thread) == Success(LockOf(a.locks, LockKey(req.ticketId)))
    // no other lock is touched
    ensures forall k :: k != LockKey(req.ticketId) ==> LockOf(a.locks, k) == LockOf(locks, k)
  {
    var key := LockKey(req.ticketId);
    var step := TryLock(LockOf(locks, key), env.thread, env.wait);
    var body: (Result<B, Exception>, S, seq<Invocation>, LockState) :=
      match step.result
      case NotAcquired => (Failure(CongestedError), store, [], step.lock)
      case Interrupted => (Failure(ServerError), store, [], step.lock)
      case Acquired =>
        var ret := service(store, req);
        var result := if ret.result == Failure(InterruptedException) then Failure(ServerError) else ret.result;
        (result, ret.store, [Invocation(req, step.lock)], Lease(step.lock, env.lease));
    var fin := Finally(body.3, env.thread);
    Attempt(Rethrow(body.0, fin.thrown), body.1, Put(locks, key, fin.lock),
            step.result, body.2, body.3, fin.released)
  }

  /** The two failures the facade raises itself differ from each other. */
  lemma FacadeFailuresDistinct()
    ensures CongestedError != ServerError
  {
  }

  /** On every exit path and whatever happens to the lease, a thread that did
      not hold the lock when it called holds it no longer when the call returns. */
  lemma LockReleasedOnEveryPath<S, B>(
    locks: LockTable, store: S, service: (S, Request) -> ServiceReturn<S, B>, env: Env, req: Request)
    requires !IsHeldByThread(LockOf(locks, LockKey(req.ticketId)), env.thread)
    ensures !IsHeldByThread(LockOf(ReserveWithLock(locks, store, service, env, req).locks, LockKey(req.ticketId)), env.thread)
  {
  }

  /** A reentrant call by a thread that already held the lock gives back
      exactly the hold it took, provided the lease did not run out. */
  lemma ReentrantCallRestoresLock<S, B>(
    locks: LockTable, store: S, service: (S, Request) -> ServiceReturn<S, B>, env: Env, req: Request)
    requires IsHeldByThread(LockOf(locks, LockKey(req.ticketId)), env.thread)
    requires Valid(LockOf(locks, LockKey(req.ticketId)))
    requires env.lease == Kept
    ensures ReserveWithLock(locks, store, service, env, req).locks == locks
  {
  }

  /** A lock held by someone else when the finally block runs (its lease
      ran out and another thread took it) is left to that holder. */
  lemma OtherHolderUntouched<S, B>(
    locks: LockTable, store: S, service: (S, Request) -> ServiceReturn<S, B>, env: Env, req: Request)
    requires env.lease.ExpiredAndTakenBy? && env.lease.other != env.thread
    ensures var a := ReserveWithLock(locks, store, service, env, req);
            a.tryLock == Acquired ==>
              && !a.released
              && LockOf(a.locks, LockKey(req.ticketId)) == Held(env.lease.other, 1)
  {
  }

  /** A call about one ticket leaves every other ticket's lock alone. */
  lemma OtherTicketsUntouched<S, B>(
    locks: LockTable, store: S, service: (S, Request) -> ServiceReturn<S, B>, env: Env, req: Request,
    other: Option<Long>)
    requires other != req.ticketId
    ensures LockOf(ReserveWithLock(locks, store, service, env, req).locks, LockKey(other))
         == LockOf(locks, LockKey(other))
  {
  }

  /** The lease event does not hand the lock to another thread. */
  predicate NoTakeover(env: Env) {
    !env.lease.ExpiredAndTakenBy? || env.lease.other == env.thread
  }

  /** A call that finds its ticket's lock free takes it, and on every exit
      path gives it back free, unless another thread took it over after the
      lease ran out. */
  lemma FreeLockComesBackFree<S, B>(
    locks: LockTable, store: S, service: (S, Request) -> ServiceReturn<S, B>, env: Env, req: Request)
    requires !IsLocked(LockOf(locks, LockKey(req.ticketId)))
    requires NoTakeover(env)
    ensures var a := ReserveWithLock(locks, store, service, env, req);
            a.tryLock == Acquired && !IsLocked(LockOf(a.locks, LockKey(req.ticketId)))
  {
  }
}
