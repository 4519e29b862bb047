# Lock-guarded ticket reservation — a Dafny model

This project models the reservation path of a ticketing service. Many callers
may try to book the same seat at once. Two pieces decide who wins:

- **`Ticket.reserve`**: a two-state machine over `TicketStatus { AVAILABLE, BOOKED }`.
  Reserving an AVAILABLE ticket makes it BOOKED. Anything else throws
  `ResponseStatusException(BAD_REQUEST, "이미 예약된 좌석입니다.")` before the
  status is assigned, so the ticket is left as it was.
- **`RedissonLockFacade.reserveWithLock`**: derives the key
  `"lock:ticket:" + ticketId`, calls `tryLock(10, 3, SECONDS)` on a Redisson
  lock, runs `TicketingService.reserve` while holding it, and in `finally`
  calls `unlock` only when `isLocked() && isHeldByCurrentThread()`. A lock not
  acquired gives a `RuntimeException` with the "too many waiters, try again"
  message. An interrupted wait gives a `RuntimeException` with the "server
  error" message. The same `catch` also covers the business call, so an
  `InterruptedException` thrown by that call gives the "server error" failure
  too. Anything else the business call returns or throws is passed on
  unchanged.

The model is sequential and functional. Concurrency enters only as
environment events: what happens while `tryLock` waits (`WaitEvent`), and
whether the 3-second lease runs out while the business call runs
(`LeaseEvent`). The business call is a function parameter of the facade, so
the facade's properties hold for every service behaviour.
`SequentialBooking` then plugs in a stand-in service that loads the ticket,
calls `reserve`, and saves the ticket and a new booking together. Over any
sequence of callers, it proves that a ticket is booked at most once. It also
covers callers contending for an AVAILABLE ticket whose lock is free at the
start, where no other thread takes the lock over after a lease runs out. In
that case the first caller wins and every other caller gets the "already
reserved" rejection.

In this sequential model, "at most one booking" does not depend on the lock.
`AtMostOneWinnerPerTicket` holds for any starting lock table and any wait or
lease events. The guarantee comes from `Ticket.reserve` and from the
all-or-nothing save of ticket and booking. The lock's role is to serialise
callers, and a sequential model has serialisation built in. What the model
proves about the lock is the facade's protocol: the business call starts only
while the lock is held, and the release never touches another holder's lock.
The lease can run out while the call is still running.

Files:

- `javalong.dfy`: Java's 64-bit `long`, the type of the ids.
- `wrappers.dfy`: `Option` (a nullable Java reference) and `Result` (a value or a thrown exception).
- `exceptions.dfy`: the Java exceptions on the path.
- `decimal.dfy`: how Java writes a `Long` into a string, plus a reader that inverts it.
- `ticket.dfy`: `Ticket`, `TicketStatus`, `Reserve`.
- `lock.dfy`: an abstract reentrant Redisson `RLock` and Redis's lock key space.
- `facade.dfy`: `reserveWithLock`.
- `booking.dfy`: the facade composed with a stand-in reservation service over a store.

The facade's two own failures are both plain `RuntimeException`s that
differ only in their message. `FacadeFailuresDistinct` shows that they differ.

## Model

| member | source | states |
|---|---|---|
| Tickets.Reserve | src/main/java/com/yh/ticketing/model/Ticket.java:24-29 | `reserve` succeeds exactly when the status is AVAILABLE, and the ticket is then BOOKED. Otherwise, including a null status, it throws the BAD_REQUEST "already reserved" exception and leaves the ticket unchanged. Id, performance id and seat number are always kept. The resulting status is never AVAILABLE. |
| Tickets.ReserveIsTransition | src/main/java/com/yh/ticketing/model/Ticket.java:24-32 | A successful `reserve` takes exactly the AVAILABLE→BOOKED edge, which changes nothing but the status. Every such edge out of a ticket is what `reserve` does. |
| Tickets.ReserveTwiceFails | src/main/java/com/yh/ticketing/model/Ticket.java:25-28 | `reserve` is not idempotent: a second call right after the first always throws "already reserved" and changes nothing. |
| Tickets.AtMostOneReservation | src/main/java/com/yh/ticketing/model/Ticket.java:24-32 | Over any number of `reserve` calls on one ticket, at most one succeeds. One succeeds exactly when the ticket started AVAILABLE and at least one call was made. The ticket ends BOOKED in that case and unchanged otherwise, and the seat identity is kept. |
| Decimal.LongText | src/main/java/com/yh/ticketing/service/RedissonLockFacade.java:24 | Java's text for a `long`: it starts with a minus sign exactly when the number is negative, and otherwise it is all digits. |
| Decimal.ParseNatText | src/main/java/com/yh/ticketing/service/RedissonLockFacade.java:24 | Reading the decimal digits of a natural number gives that number back. |
| Decimal.ParseLongText | src/main/java/com/yh/ticketing/service/RedissonLockFacade.java:24 | Reading back Java's text for a `long` (a sign, then the digits) gives the same number. |
| Decimal.LongTextInjective | src/main/java/com/yh/ticketing/service/RedissonLockFacade.java:24 | Two numbers get the same text if and only if they are equal. |
| LockFacade.NullableLongText | src/main/java/com/yh/ticketing/service/RedissonLockFacade.java:24 | How `"lock:ticket:" + ticketId` writes a possibly null `Long`. The text is `null` exactly when the id is null, and otherwise it reads back as the id. |
| LockFacade.LockKey | src/main/java/com/yh/ticketing/service/RedissonLockFacade.java:24 | Every lock key begins with `lock:ticket:` and has the ticket id's text after it. |
| LockFacade.LockKeyRoundTrip | src/main/java/com/yh/ticketing/service/RedissonLockFacade.java:24 | The ticket id, including a null id written as `null`, can be read back from its lock key. |
| LockFacade.LockKeyInjective | src/main/java/com/yh/ticketing/service/RedissonLockFacade.java:24 | Two tickets share a lock key if and only if they have the same id. |
| RedisLock.IsLocked | src/main/java/com/yh/ticketing/service/RedissonLockFacade.java:45 | `isLocked()` is true exactly when some thread holds the lock. |
| RedisLock.IsHeldByThread | src/main/java/com/yh/ticketing/service/RedissonLockFacade.java:45 | `isHeldByCurrentThread()` is true only when the lock is taken. |
| RedisLock.HeldByAtMostOneThread | src/main/java/com/yh/ticketing/service/RedissonLockFacade.java:45 | No two threads hold the lock at once. |
| RedisLock.TryLock | src/main/java/com/yh/ticketing/service/RedissonLockFacade.java:30 | `tryLock` succeeds if and only if the thread then holds the lock. A free lock, or one the thread already holds (reentrant, one more hold), is taken at once. A lock held by another thread is taken only if it is released within the wait time. Otherwise the call reports not-acquired or interrupted and leaves the lock unchanged. |
| RedisLock.Unlock | src/main/java/com/yh/ticketing/service/RedissonLockFacade.java:46 | `unlock` succeeds if and only if the calling thread holds the lock, and otherwise throws IllegalMonitorState. It removes one hold, so the lock is free or has fewer holds. A valid lock stays locked exactly when more than one hold was left. |
| RedisLock.UnlockUndoesTryLock | src/main/java/com/yh/ticketing/service/RedissonLockFacade.java:30-46 | After a successful `tryLock`, the thread can unlock. If the lock was free or already held by the thread, that unlock puts it back exactly as it was. `tryLock` keeps a valid lock valid. |
| RedisLock.UnlockKeepsValid | src/main/java/com/yh/ticketing/service/RedissonLockFacade.java:46 | `unlock` keeps a valid lock valid, so a held lock always has at least one hold. |
| RedisLock.Lease | src/main/java/com/yh/ticketing/service/RedissonLockFacade.java:29-30 | After the lease runs out the lock is free, or held once by the thread that took it next. A kept lease changes nothing, and validity is kept. |
| RedisLock.Put | src/main/java/com/yh/ticketing/service/RedissonLockFacade.java:46 | Writing one lock state back changes that key only, and a freed lock's key is deleted. |
| LockFacade.Finally | src/main/java/com/yh/ticketing/service/RedissonLockFacade.java:43-47 | The finally block never throws. It unlocks if and only if the current thread holds the lock, and otherwise leaves the lock, possibly another holder's, as it is. |
| LockFacade.ReserveWithLock | src/main/java/com/yh/ticketing/service/RedissonLockFacade.java:22-49 | The business call runs at most once, and exactly when `tryLock` acquired the lock. It gets the caller's `(ticketId, userId, userName)` and starts while the current thread holds the lock. Not acquired gives the congestion failure, and an interrupted wait gives the server-error failure; in both cases the store is untouched. When acquired, the service's store and its result or exception are returned, except that an `InterruptedException` from the service becomes the server-error failure. The `tryLock` outcome depends on the lock under the ticket's own key: free or already this thread's means acquired. If another thread holds it, the wait event decides: released in time means acquired, and an interrupt means interrupted. The lock seen by the finally block is the post-`tryLock` lock after the lease event when acquired, and the untouched lock otherwise. The finally block releases exactly when the thread holds the lock at that point, and no other key is touched. |
| LockFacade.FinallyKeepsTryResult | src/main/java/com/yh/ticketing/service/RedissonLockFacade.java:43-48 | The guarded finally block never replaces what the try block returned or threw. Under Java's rule an exception from `finally` would replace it, but the `isLocked() && isHeldByCurrentThread()` guard means `unlock` never throws. |
| LockFacade.FacadeFailuresDistinct | src/main/java/com/yh/ticketing/service/RedissonLockFacade.java:32-42 | The congestion failure and the interrupted-wait failure are different exceptions. |
| LockFacade.LockReleasedOnEveryPath | src/main/java/com/yh/ticketing/service/RedissonLockFacade.java:43-47 | A thread that did not hold the lock on entry does not hold it on return. This holds on every exit path (success, business failure, congestion, interrupt) and under every lease event. |
| LockFacade.ReentrantCallRestoresLock | src/main/java/com/yh/ticketing/service/RedissonLockFacade.java:30-47 | A call by a thread that already held the lock, with no lease expiry, leaves the whole lock table as it found it. |
| LockFacade.OtherHolderUntouched | src/main/java/com/yh/ticketing/service/RedissonLockFacade.java:45-47 | If the lease ran out and another thread took the lock during the business call, the finally block does not unlock. That other thread's single hold survives. |
| LockFacade.OtherTicketsUntouched | src/main/java/com/yh/ticketing/service/RedissonLockFacade.java:24 | A call about one ticket never changes the lock of a ticket with a different id. |
| LockFacade.FreeLockComesBackFree | src/main/java/com/yh/ticketing/service/RedissonLockFacade.java:30-47 | A call that finds its ticket's lock free acquires it. On every exit path, and under every lease event except a takeover by another thread, it leaves the lock free again. |
| SequentialBooking.Engine | src/main/java/com/yh/ticketing/service/RedissonLockFacade.java:37-39 | Stand-in business call. It succeeds exactly for a known ticket that is AVAILABLE. It then books that ticket by the AVAILABLE→BOOKED edge, leaves the other tickets alone, appends one booking for `(ticketId, userId, userName)` and returns it. Any failure leaves the store unchanged, and a known ticket that is not available gives the "already reserved" exception. |
| SequentialBooking.EngineKeepsInvariant | src/main/java/com/yh/ticketing/model/Ticket.java:24-29 | The stand-in service keeps the store invariant: at most one booking per ticket, and a booked ticket's booking refers to a BOOKED ticket. |
| SequentialBooking.FacadeCallStep | src/main/java/com/yh/ticketing/service/RedissonLockFacade.java:22-49 | One facade call keeps the store invariant and never makes a ticket AVAILABLE again. A win for a ticket needs it AVAILABLE before and leaves it not AVAILABLE, and each win adds exactly one booking of that ticket. |
| SequentialBooking.AtMostOneWinnerPerTicket | src/main/java/com/yh/ticketing/service/RedissonLockFacade.java:22-49 | Over any sequence of calls, from any lock table and under any wait or lease events, a ticket is won at most once, and never unless it started AVAILABLE. The store gains exactly one booking per win, and the invariant holds at the end. |
| SequentialBooking.WinnersGetTheirBooking | src/main/java/com/yh/ticketing/service/RedissonLockFacade.java:39 | Every successful call returns a booking for the ticket and user it was made for. |
| SequentialBooking.RunLeavesLocksFree | src/main/java/com/yh/ticketing/service/RedissonLockFacade.java:43-47 | Consider a run of calls from any lock table where every caller's ticket lock is free at the start and no lock is taken over by another thread after a lease expiry. The run then leaves every lock as it found it, whatever the outcomes were. |
| SequentialBooking.TwoCallersThenALateComer | src/main/java/com/yh/ticketing/service/RedissonLockFacade.java:22-49 | An instance of `ExactlyOneWinner`. Ticket 100 starts AVAILABLE with no lock taken, and Alice, Bob and then a third user reserve it with no lease expiry. Alice gets the booking, the other two get "already reserved", one booking exists, and no lock is left held. |
| SequentialBooking.LaterCallersRejected | src/main/java/com/yh/ticketing/service/RedissonLockFacade.java:22-49 | Take a known ticket that is no longer AVAILABLE and whose lock is free at the start, with no lock taken over after a lease expiry. Every caller for it then gets "already reserved", the store does not change, and the ticket's lock ends free. If another thread holds the lock at the start, a caller may instead get the congestion failure. |
| SequentialBooking.ExactlyOneWinner | src/main/java/com/yh/ticketing/service/RedissonLockFacade.java:22-49 | Mutual exclusion for any number of callers contending for one AVAILABLE ticket. The ticket's lock must be free at the start, from any lock table, with no takeover by another thread after a lease expiry. The first caller gets its booking and every other caller gets "already reserved". Exactly one booking is added, and every lock ends as it started. |

## Left out

- Real concurrency and timing: the 10-second wait and 3-second lease appear only as their effects (`WaitEvent`, `LeaseEvent`). Calls are sequential, so two business calls never overlap.
- Double booking under lease expiry: a lease that runs out mid-call lets a second caller in while the first transaction is still open. Ruling out a double booking then depends on the database's transaction isolation, which is outside this model.
- The check-then-act gap in `finally`: the lease could run out between `isHeldByCurrentThread()` and `unlock()`, making `unlock` throw. The model treats the guard and the unlock as one step.
- Redis connection errors thrown by `tryLock`, `isLocked`, `isHeldByCurrentThread` or `unlock`: these are I/O failures of the coordinator.
- `TicketingService` and the `Booking` class are not part of this model. `SequentialBooking.Engine` is an assumed stand-in, and the facade's own properties hold for any service function.
- `@Transactional` commit atomicity: the stand-in applies the ticket update and the booking insert together or not at all.
- `TicketingController`, `getMyBookings`, the repositories, `Performance` and the unrelated blog-post web app: these are HTTP routing, data access and plain records with no reservation logic.
- Logging (`log.info` on a failed lock): it has no effect on outcomes.
- `userId` and `userName` are modelled as non-null strings because the facade only passes them on. A null ticket id is kept because it changes the lock key to `lock:ticket:null`.
