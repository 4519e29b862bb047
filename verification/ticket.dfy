/** The ticket entity and its one business rule: a seat can be reserved only
    while it is AVAILABLE, and a reservation moves it to BOOKED. */
module Tickets {
  import opened Wrappers
  import opened Exceptions
  import opened JavaLong

  datatype TicketStatus = Available | Booked

  /** A seat of one performance. Every field is a Java reference and may be
      null (`None`); the id is null until the row is first saved. */
  datatype Ticket = Ticket(
    id: Option<Long>,
    performanceId: Option<Long>,
    seatNumber: Option<string>,
    status: Option<TicketStatus>)

  /** The rejection's reason text ("this seat is already reserved"). */
  const ALREADY_RESERVED: string := "이미 예약된 좌석입니다."

  /** The exception `reserve` throws for a seat that is not available. */
  const AlreadyReservedError: Exception := ResponseStatus(BAD_REQUEST, ALREADY_RESERVED)

  /** The state of the ticket object after a call of the void method
      `reserve`, and the exception the call threw, if any. */
  datatype Effect = Effect(ticket: Ticket, thrown: Option<Exception>)

  /** Identity fields (everything except the status) agree. */
  predicate SameSeat(a: Ticket, b: Ticket) {
    a.id == b.id && a.performanceId == b.performanceId && a.seatNumber == b.seatNumber
  }

  /** The state machine's only edge: AVAILABLE to BOOKED, nothing else changed. */
  predicate Transition(before: Ticket, after: Ticket) {
    && before.status == Some(Available)
    && after.status == Some(Booked)
    && SameSeat(before, after)
  }

  /** `Ticket.reserve()`. The guard compares with AVAILABLE, so a BOOKED or a
      null status is rejected, and the exception is thrown before the
      assignment, so a rejected ticket is left as it was. */
  function Reserve(t: Ticket): (e: Effect)
    ensures e.thrown.None? <==> t.status == Some(Available)
    ensures e.thrown.None? ==> e.ticket.status == Some(Booked)
    ensures e.thrown.Some? ==> e.thrown.value == AlreadyReservedError && e.ticket == t
    ensures SameSeat(e.ticket, t)
    ensures e.ticket.status != Some(Available)
  {
    if t.status != Some(Available) then Effect(t, Some(AlreadyReservedError))
    else Effect(t.(status := Some(Booked)), None)
  }

  /** A successful `reserve` takes exactly the transition edge, and every
      transition edge out of `t` is what `reserve` does. */
  lemma ReserveIsTransition(t: Ticket, t': Ticket)
    ensures Reserve(t).thrown.None? ==> Transition(t, Reserve(t).ticket)
    ensures Transition(t, t') ==> Reserve(t) == Effect(t', None)
  {
  }

  /** Reserving twice in a row: the second call is always rejected. */
  lemma ReserveTwiceFails(t: Ticket)
    ensures Reserve(Reserve(t).ticket).thrown == Some(AlreadyReservedError)
    ensures Reserve(Reserve(t).ticket).ticket == Reserve(t).ticket
  {
  }

  /** Calls `reserve` `n` times on one ticket object, catching each rejection;
      yields how many calls succeeded and the ticket's final state. */
  function ReserveRepeatedly(t: Ticket, n: nat): (r: (nat, Ticket))
    decreases n
  {
    if n == 0 then (0, t)
    else
      var e := Reserve(t);
      var rest := ReserveRepeatedly(e.ticket, n - 1);
      (rest.0 + (if e.thrown.None? then 1 else 0), rest.1)
  }

  /** Over any run of `reserve` calls on one ticket at most one succeeds, and
      one does exactly when the ticket started AVAILABLE and was tried at all;
      the seat keeps its identity throughout. */
  lemma {:induction false} AtMostOneReservation(t: Ticket, n: nat)
    ensures ReserveRepeatedly(t, n).0 <= 1
    ensures ReserveRepeatedly(t, n).0 == 1 <==> n >= 1 && t.status == Some(Available)
    ensures SameSeat(ReserveRepeatedly(t, n).1, t)
    ensures n >= 1 && t.status == Some(Available) ==> ReserveRepeatedly(t, n).1.status == Some(Booked)
    ensures t.status != Some(Available) ==> ReserveRepeatedly(t, n).1 == t
    decreases n
  {
    if n > 0 {
      var e := Reserve(t);
      AtMostOneReservation(e.ticket, n - 1);
    }
  }
}
