/** The facade composed with a reservation service over a ticket and booking
    store, run for a sequence of callers one after another. `TicketingService`
    and `Booking` are not part of this model: `Engine` is a stand-in that
    loads the ticket, calls `Ticket.reserve`, and on success saves it together
    with a new booking, all or nothing. */
module SequentialBooking {
  import opened Wrappers
  import opened Exceptions
  import opened JavaLong
  import opened Tickets
  import opened RedisLock
  import opened LockFacade

  /** The parts of a booking this model relies on. */
  datatype Booking = Booking(ticketId: Long, userId: string, userName: string)

  /** Tickets by id, and the bookings made so far in creation order. */
  datatype Store = Store(tickets: map<Long, Ticket>, bookings: seq<Booking>)

  /** What the stand-in service throws for an unknown or null ticket id. */
  const TicketNotFound: Exception := Raised("ticket not found")

  predicate Bookable(s: Store, k: Long) {
    k in s.tickets && s.tickets[k].status == Some(Available)
  }

  /** How many of `bs` are bookings of ticket `k`. */
  function BookingsFor(bs: seq<Booking>, k: Long): nat {
    if bs == [] then 0
    else BookingsFor(bs[..|bs| - 1], k) + (if bs[|bs| - 1].ticketId == k then 1 else 0)
  }

  /** The store invariant: a ticket has at most one booking, a booked ticket's
      booking refers to a BOOKED ticket, and an AVAILABLE ticket has none. */
  predicate OneBookingPerTicket(s: Store) {
    && (forall k :: BookingsFor(s.bookings, k) <= 1)
    && (forall k :: BookingsFor(s.bookings, k) == 1 ==> k in s.tickets && s.tickets[k].status == Some(Booked))
  }

  /** The stand-in business call. A rejection rolls back, so the store is
      unchanged on every failure. */
  function Engine(s: Store, req: Request): (r: ServiceReturn<Store, Booking>)
    ensures r.result.Success? <==> req.ticketId.Some? && Bookable(s, req.ticketId.value)
    ensures r.result.Success? ==>
              && r.result.value == Booking(req.ticketId.value, req.userId, req.userName)
              && r.store.bookings == s.bookings + [r.result.value]
              && r.store.tickets.Keys == s.tickets.Keys
              && Transition(s.tickets[req.ticketId.value], r.store.tickets[req.ticketId.value])
              && forall k :: k in s.tickets && k != req.ticketId.value ==> r.store.tickets[k] == s.tickets[k]
    ensures r.result.Failure? ==> r.store == s
    ensures req.ticketId.Some? && req.ticketId.value in s.tickets && !Bookable(s, req.ticketId.value) ==>
              r.result == Failure(AlreadyReservedError)
  {
    match req.ticketId
    case None => ServiceReturn(s, Failure(TicketNotFound))
    case Some(id) =>
      if id !in s.tickets then ServiceReturn(s, Failure(TicketNotFound))
      else
        var e := Reserve(s.tickets[id]);
        match e.thrown
        case Some(x) => ServiceReturn(s, Failure(x))
        case None =>
          var b := Booking(id, req.userId, req.userName);
          ServiceReturn(Store(s.tickets[id := e.ticket], s.bookings + [b]), Success(b))
  }

  /** The stand-in service keeps the store invariant. */
  lemma EngineKeepsInvariant(s: Store, req: Request)
    requires OneBookingPerTicket(s)
    ensures OneBookingPerTicket(Engine(s, req).store)
  {
  }

  /** One caller: its thread and timing events, and its arguments. */
  datatype Caller = Caller(env: Env, request: Request)

  /** One finished call: its arguments and what it returned or threw. */
  datatype Step = Step(request: Request, outcome: Result<Booking, Exception>)

  datatype Run = Run(steps: seq<Step>, store: Store, locks: LockTable)

  /** The callers' `reserveWithLock` calls, one after another. */
  function RunAll(locks: LockTable, s: Store, callers: seq<Caller>): (r: Run)
    ensures |r.steps| == |callers|
    ensures forall i :: 0 <= i < |callers| ==> r.steps[i].request == callers[i].request
    decreases |callers|
  {
    if callers == [] then Run([], s, locks)
    else
      var a := ReserveWithLock(locks, s, Engine, callers[0].env, callers[0].request);
      var rest := RunAll(a.locks, a.store, callers[1..]);
      Run([Step(callers[0].request, a.outcome)] + rest.steps, rest.store, rest.locks)
  }

  /** How many of the calls booked ticket `k`. */
  function WinsFor(k: Long, steps: seq<Step>): nat {
    if steps == [] then 0
    else (if steps[0].request.ticketId == Some(k) && steps[0].outcome.Success? then 1 else 0)
         + WinsFor(k, steps[1..])
  }

  /** One facade call, as seen by the store: a win for `k` needs `k` bookable
      before and leaves it not bookable; nothing becomes bookable; the store
      invariant is kept. */
  lemma FacadeCallStep(locks: LockTable, s: Store, c: Caller, k: Long)
    requires OneBookingPerTicket(s)
    ensures var a := ReserveWithLock(locks, s, Engine, c.env, c.request);
            && OneBookingPerTicket(a.store)
            && (Bookable(a.store, k) ==> Bookable(s, k))
            && (c.request.ticketId == Some(k) && a.outcome.Success? ==> Bookable(s, k) && !Bookable(a.store, k))
            && BookingsFor(a.store.bookings, k)
               == BookingsFor(s.bookings, k) + (if c.request.ticketId == Some(k) && a.outcome.Success? then 1 else 0)
  {
  }

  /** Exactly one winner at most: over any sequence of calls, ticket `k` is
      booked at most once, and not at all unless it started AVAILABLE; each
      win adds exactly one booking of `k` to the store, and the store
      invariant holds throughout. */
  lemma {:induction false} AtMostOneWinnerPerTicket(locks: LockTable, s: Store, callers: seq<Caller>, k: Long)
    requires OneBookingPerTicket(s)
    ensures WinsFor(k, RunAll(locks, s, callers).steps) <= (if Bookable(s, k) then 1 else 0)
    ensures BookingsFor(RunAll(locks, s, callers).store.bookings, k)
         == BookingsFor(s.bookings, k) + WinsFor(k, RunAll(locks, s, callers).steps)
    ensures OneBookingPerTicket(RunAll(locks, s, callers).store)
    decreases |callers|
  {
    if callers != [] {
      var c := callers[0];
      var a := ReserveWithLock(locks, s, Engine, c.env, c.request);
      FacadeCallStep(locks, s, c, k);
      AtMostOneWinnerPerTicket(a.locks, a.store, callers[1..], k);
      var r := RunAll(locks, s, callers);
      var rest := RunAll(a.locks, a.store, callers[1..]);
      assert r.steps[1..] == rest.steps;
    }
  }

  /** Every won call's booking names the ticket and user it was made for. */
  lemma {:induction false} WinnersGetTheirBooking(locks: LockTable, s: Store, callers: seq<Caller>, i: nat)
    requires i < |callers|
    ensures var st := RunAll(locks, s, callers).steps[i];
            st.outcome.Success? ==>
              && st.request.ticketId.Some?
              && st.outcome.value == Booking(st.request.ticketId.value, st.request.userId, st.request.userName)
    decreases i
  {
    var a := ReserveWithLock(locks, s, Engine, callers[0].env, callers[0].request);
    if i > 0 {
      WinnersGetTheirBooking(a.locks, a.store, callers[1..], i - 1);
    }
  }

  /** Release on every path: when every caller finds its ticket's lock free
      and no lock is taken over by another thread after a lease runs out, the
      run leaves every lock as it found it, whatever the outcomes. */
  lemma {:induction false} RunLeavesLocksFree(locks: LockTable, s: Store, callers: seq<Caller>)
    requires forall i :: 0 <= i < |callers| ==>
               && NoTakeover(callers[i].env)
               && !IsLocked(LockOf(locks, LockKey(callers[i].request.ticketId)))
    ensures forall key :: LockOf(RunAll(locks, s, callers).locks, key) == LockOf(locks, key)
    decreases |callers|
  {
    if callers != [] {
      var c := callers[0];
      var key0 := LockKey(c.request.ticketId);
      var a := ReserveWithLock(locks, s, Engine, c.env, c.request);
      FreeLockComesBackFree(locks, s, Engine, c.env, c.request);
      assert forall key :: LockOf(a.locks, key) == LockOf(locks, key) by {
        forall key ensures LockOf(a.locks, key) == LockOf(locks, key) {
          if key == key0 {
            assert LockOf(a.locks, key) == Free && LockOf(locks, key) == Free;
          }
        }
      }
      RunLeavesLocksFree(a.locks, a.store, callers[1..]);
    }
  }

  /** All callers ask for ticket `k`, and no lock is taken over by another
      thread after a lease runs out. */
  predicate ContendFor(callers: seq<Caller>, k: Long) {
    forall i :: 0 <= i < |callers| ==>
      callers[i].request.ticketId == Some(k) && NoTakeover(callers[i].env)
  }

  /** Once ticket `k` is no longer AVAILABLE, callers for it that find its lock
      free all get the seat-taken rejection; the store stays as it is and the
      lock ends free. */
  lemma {:induction false} LaterCallersRejected(locks: LockTable, s: Store, callers: seq<Caller>, k: Long)
    requires k in s.tickets && !Bookable(s, k)
    requires ContendFor(callers, k)
    requires !IsLocked(LockOf(locks, LockKey(Some(k))))
    ensures forall i :: 0 <= i < |callers| ==>
              RunAll(locks, s, callers).steps[i].outcome == Failure(AlreadyReservedError)
    ensures RunAll(locks, s, callers).store == s
    ensures !IsLocked(LockOf(RunAll(locks, s, callers).locks, LockKey(Some(k))))
    decreases |callers|
  {
    if callers != [] {
      var a := ReserveWithLock(locks, s, Engine, callers[0].env, callers[0].request);
      FreeLockComesBackFree(locks, s, Engine, callers[0].env, callers[0].request);
      assert a.store == s;
      LaterCallersRejected(a.locks, s, callers[1..], k);
      var r := RunAll(locks, s, callers);
      assert r.steps[1..] == RunAll(a.locks, s, callers[1..]).steps;
    }
  }

  /** Mutual exclusion: when callers contend for a ticket that starts
      AVAILABLE and whose lock is free at the start, the first caller wins its
      booking, every other caller gets the seat-taken rejection, exactly one
      booking is added, and every lock ends as it started. */
  lemma {:induction false} ExactlyOneWinner(locks: LockTable, s: Store, callers: seq<Caller>, k: Long)
    requires Bookable(s, k)
    requires ContendFor(callers, k) && |callers| >= 1
    requires !IsLocked(LockOf(locks, LockKey(Some(k))))
    ensures var r := RunAll(locks, s, callers);
            && r.steps[0].outcome == Success(Booking(k, callers[0].request.userId, callers[0].request.userName))
            && (forall i :: 1 <= i < |callers| ==> r.steps[i].outcome == Failure(AlreadyReservedError))
            && r.store.bookings == s.bookings + [r.steps[0].outcome.value]
            && (forall key :: LockOf(r.locks, key) == LockOf(locks, key))
  {
    var a := ReserveWithLock(locks, s, Engine, callers[0].env, callers[0].request);
    FreeLockComesBackFree(locks, s, Engine, callers[0].env, callers[0].request);
    assert k in a.store.tickets && !Bookable(a.store, k);
    LaterCallersRejected(a.locks, a.store, callers[1..], k);
    RunLeavesLocksFree(locks, s, callers);
    var r := RunAll(locks, s, callers);
    assert r.steps[1..] == RunAll(a.locks, a.store, callers[1..]).steps;
  }

  /** Ticket 100 starts AVAILABLE; Alice (thread 1), then Bob (thread 2), then
      a third user (thread 3) reserve it with no lease running out. Alice gets
      the booking and both later callers get the seat-taken rejection. */
  lemma TwoCallersThenALateComer(w1: WaitEvent, w2: WaitEvent, w3: WaitEvent)
    ensures var t := Ticket(Some(100), Some(1), Some("A1"), Some(Available));
            var callers := [
              Caller(Env(1, w1, Kept), Request(Some(100), "U1", "Alice")),
              Caller(Env(2, w2, Kept), Request(Some(100), "U2", "Bob")),
              Caller(Env(3, w3, Kept), Request(Some(100), "U3", "Carol"))];
            var r := RunAll(map[], Store(map[100 := t], []), callers);
            && r.steps[0].outcome == Success(Booking(100, "U1", "Alice"))
            && r.steps[1].outcome == Failure(AlreadyReservedError)
            && r.steps[2].outcome == Failure(AlreadyReservedError)
            && r.store.bookings == [Booking(100, "U1", "Alice")]
            && forall key :: !IsLocked(LockOf(r.locks, key))
  {
    var t := Ticket(Some(100), Some(1), Some("A1"), Some(Available));
    var callers := [
      Caller(Env(1, w1, Kept), Request(Some(100), "U1", "Alice")),
      Caller(Env(2, w2, Kept), Request(Some(100), "U2", "Bob")),
      Caller(Env(3, w3, Kept), Request(Some(100), "U3", "Carol"))];
    ExactlyOneWinner(map[], Store(map[100 := t], []), callers, 100);
  }
}
