/** An abstract Redisson `RLock` as one thread observes it. Redis holds, per
    lock key, the owning thread and a hold count (the lock is reentrant); a
    missing key is a free lock. Waiting and lease expiry are wall-clock
    behaviour, so they enter the model as events chosen by the environment. */
module RedisLock {
  import opened Wrappers
  import opened Exceptions

  /** A lock holder as Redisson identifies it: one thread of one client. */
  type ThreadId = nat

  datatype LockState = Free | Held(owner: ThreadId, holds: nat)

  /** A held lock has been taken at least once. */
  predicate Valid(l: LockState) {
    l.Held? ==> l.holds >= 1
  }

  /** `RLock.isLocked()`: some thread holds the lock. */
  function IsLocked(l: LockState): (b: bool)
    ensures b <==> exists t :: IsHeldByThread(l, t)
  {
    assert l.Held? ==> IsHeldByThread(l, l.owner);
    l.Held?
  }

  /** `RLock.isHeldByCurrentThread()`, asked by thread `t`: the lock is taken,
      and by `t`. */
  function IsHeldByThread(l: LockState, t: ThreadId): (b: bool)
    ensures b ==> l != Free
  {
    l.Held? && l.owner == t
  }

  /** A lock has at most one holding thread. */
  lemma HeldByAtMostOneThread(l: LockState, t: ThreadId, u: ThreadId)
    ensures IsHeldByThread(l, t) && IsHeldByThread(l, u) ==> t == u
  {
  }

  /** What happens while `tryLock` waits on a lock another thread holds. */
  datatype WaitEvent =
    | ReleasedInTime           // the holder released it, or its lease ran out, within the wait time
    | WaitElapsed              // the wait time passed first
    | InterruptedWhileWaiting  // the waiting thread was interrupted

  datatype TryLockResult = Acquired | NotAcquired | Interrupted

  /** `tryLock`'s answer and the lock state it leaves behind. */
  datatype TryLockStep = TryLockStep(result: TryLockResult, lock: LockState)

  /** `RLock.tryLock(wait, lease, unit)` by thread `t`. A free lock, or one `t`
      already holds, is taken at once; otherwise the wait event decides. */
  function TryLock(l: LockState, t: ThreadId, w: WaitEvent): (s: TryLockStep)
    ensures s.result == Acquired <==> IsHeldByThread(s.lock, t)
    ensures s.result != Acquired ==> s.lock == l
    ensures !IsLocked(l) || IsHeldByThread(l, t) ==> s.result == Acquired
    ensures IsLocked(l) && !IsHeldByThread(l, t) ==>
              && (s.result == Acquired <==> w == ReleasedInTime)
              && (s.result == Interrupted <==> w == InterruptedWhileWaiting)
    ensures IsHeldByThread(l, t) ==> s.lock.holds == l.holds + 1
    ensures !IsHeldByThread(l, t) && s.result == Acquired ==> s.lock.holds == 1
  {
    if !IsLocked(l) then TryLockStep(Acquired, Held(t, 1))
    else if l.owner == t then TryLockStep(Acquired, Held(t, l.holds + 1))
    else
      match w
      case ReleasedInTime => TryLockStep(Acquired, Held(t, 1))
      case WaitElapsed => TryLockStep(NotAcquired, l)
      case InterruptedWhileWaiting => TryLockStep(Interrupted, l)
  }

  /** `RLock.unlock()` by thread `t`: drops one hold and frees the lock with
      the last one; throws when `t` is not the holder. */
  function Unlock(l: LockState, t: ThreadId): (r: Result<LockState, Exception>)
    ensures r.Success? <==> IsHeldByThread(l, t)
    ensures r.Failure? ==> r.error == IllegalMonitorState
    ensures r.Success? ==> !IsLocked(r.value) || (IsHeldByThread(r.value, t) && r.value.holds < l.holds)
    ensures r.Success? && Valid(l) ==> (IsLocked(r.value) <==> l.holds > 1)
  {
    if !IsHeldByThread(l, t) then Failure(IllegalMonitorState)
    else if l.holds <= 1 then Success(Free)
    else Success(Held(t, l.holds - 1))
  }

  /** Taking the lock and unlocking it once puts a valid lock back as it was,
      unless the lock was another thread's and was handed over while waiting. */
  lemma UnlockUndoesTryLock(l: LockState, t: ThreadId, w: WaitEvent)
    requires Valid(l)
    ensures Valid(TryLock(l, t, w).lock)
    ensures TryLock(l, t, w).result == Acquired ==> Unlock(TryLock(l, t, w).lock, t).Success?
    ensures !IsLocked(l) || IsHeldByThread(l, t) ==> Unlock(TryLock(l, t, w).lock, t) == Success(l)
  {
  }

  /** Unlocking keeps a valid lock valid. */
  lemma UnlockKeepsValid(l: LockState, t: ThreadId)
    requires Valid(l)
    ensures Unlock(l, t).Success? ==> Valid(Unlock(l, t).value)
  {
  }

  /** What happens to a held lock while its holder is busy: the lease is still
      running, it ran out, or it ran out and another thread took the lock. */
  datatype LeaseEvent = Kept | Expired | ExpiredAndTakenBy(other: ThreadId)

  function Lease(l: LockState, e: LeaseEvent): (l': LockState)
    ensures e == Kept ==> l' == l
    ensures e == Expired ==> !IsLocked(l')
    ensures e.ExpiredAndTakenBy? ==> IsHeldByThread(l', e.other) && l'.holds == 1
    ensures Valid(l) ==> Valid(l')
  {
    match e
    case Kept => l
    case Expired => Free
    case ExpiredAndTakenBy(o) => Held(o, 1)
  }

  /** Redis's key space as far as locks go: an absent key is a free lock. */
  type LockTable = map<string, LockState>

  function LockOf(m: LockTable, key: string): LockState {
    if key in m then m[key] else Free
  }

  /** Writes the state of one lock back; a freed lock's key is deleted. */
  function Put(m: LockTable, key: string, l: LockState): (m': LockTable)
    ensures LockOf(m', key) == l
    ensures forall k :: k != key ==> LockOf(m', k) == LockOf(m, k)
    ensures l == Free ==> key !in m'
  {
    if l == Free then m - {key} else m[key := l]
  }
}
