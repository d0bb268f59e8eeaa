/**
 * The store as the source keeps it: one object whose two tables and two
 * counters are updated in place. Each method does what the corresponding
 * function of server/store.js does, step by step, and is proved to agree with
 * the state-transition function of module Store, so every lemma proved there
 * holds of this object; `Valid()` is the invariant `Store.Inv`.
 */
module StoreObject {
  import opened Wrappers
  import opened Lifecycle
  import opened Records
  import opened EventLog
  import opened History
  import opened Store

  class BookingStore {
    var bookings: seq<Booking>
    var events: seq<Event>
    var nextId: int
    var nextEventId: int

    /** The object's fields as a value. */
    function State(): StoreState
      reads this
    {
      StoreState(bookings, events, nextId, nextEventId)
    }

    ghost predicate Valid()
      reads this
    {
      Inv(State())
    }

    /** A fresh store: both tables empty, both counters at 1. */
    constructor ()
      ensures Valid() && State() == Initial
    {
      bookings := [];
      events := [];
      nextId := 1;
      nextEventId := 1;
      new;
      InitialInv();
    }

    /** `logEvent`: the event takes the current `nextEventId`, which then moves on. */
    method LogEvent(bookingId: int, fromStatus: Option<Status>, toStatus: Status,
                    timestamp: Timestamp, metadata: Metadata) returns (event: Event)
      modifies this
      ensures (State(), event) == Store.LogEvent(old(State()), bookingId, fromStatus, toStatus, timestamp, metadata)
      ensures event.id == old(nextEventId) && events == old(events) + [event]
      ensures bookings == old(bookings) && nextId == old(nextId)
    {
      event := Event(nextEventId, bookingId, fromStatus, toStatus, timestamp, metadata);
      nextEventId := nextEventId + 1;
      events := events + [event];
    }

    /**
     * `createBooking`: appends a PENDING booking carrying the old `nextId` and
     * logs its creation event.
     */
    method CreateBooking(customerName: string, serviceType: string, scheduledTime: string,
                         now: Timestamp) returns (booking: Booking)
      requires Valid()
      modifies this
      ensures Valid()
      ensures (State(), booking) == Store.CreateBooking(old(State()), customerName, serviceType, scheduledTime, now)
      ensures booking.id == old(nextId) && booking.status == Pending && booking.providerId == None
      ensures bookings == old(bookings) + [booking] && nextId == old(nextId) + 1
      ensures events == old(events) + [Event(old(nextEventId), booking.id, None, Pending, booking.createdAt,
                                             CreationMeta(customerName, serviceType, scheduledTime))]
    {
      booking := Booking(nextId, customerName, serviceType, scheduledTime, Pending, None, now, now);
      nextId := nextId + 1;
      bookings := bookings + [booking];
      var _ := LogEvent(booking.id, None, Pending, booking.createdAt,
                        CreationMeta(customerName, serviceType, scheduledTime));
      CreateBookingKeepsInv(old(State()), customerName, serviceType, scheduledTime, now);
    }

    /**
     * `transitionBooking`: finds the booking, checks the requested target
     * against `TRANSITIONS[current]`, and either returns the error with
     * nothing changed, or updates the booking in place and logs one event.
     */
    method TransitionBooking(id: int, newStatus: string, providerId: Option<string>,
                             reason: Option<string>, now: Timestamp) returns (r: Result<Booking, Error>)
      requires Valid()
      modifies this
      ensures Valid()
      ensures (State(), r) == Store.TransitionBooking(old(State()), id, newStatus, providerId, reason, now)
      ensures r.Err? ==> unchanged(this)
      ensures r.Ok? ==> 1 <= id < nextId && bookings == old(bookings)[id - 1 := r.value]
      ensures r.Ok? ==> events == old(events) + [Event(old(nextEventId), id, Some(old(bookings)[id - 1].status),
                                                       r.value.status, now, TransitionMeta(providerId, reason))]
    {
      GetBookingByIndex(State(), id);
      var found := FindIndex(bookings, id);
      if found.None? {
        return Err(NotFound);
      }
      var i := found.value;
      var booking := bookings[i];
      var currentStatus := booking.status;
      IncludesIffAllowed(currentStatus, newStatus);
      if newStatus !in TargetNames(currentStatus) {
        return Err(InvalidTransition(currentStatus, newStatus, Transitions(currentStatus)));
      }
      var target := Parse(newStatus).value;
      var oldStatus := booking.status;
      booking := booking.(status := target, updatedAt := now);
      if target == Assigned && Truthy(providerId) {
        booking := booking.(providerId := providerId);
      }
      bookings := bookings[i := booking];
      var _ := LogEvent(id, Some(oldStatus), target, booking.updatedAt, TransitionMeta(providerId, reason));
      r := Ok(booking);
      TransitionBookingKeepsInv(old(State()), id, newStatus, providerId, reason, now);
    }

    /** `getBooking`: a booking exists exactly for the ids handed out so far. */
    function GetBooking(id: int): (r: Option<Booking>)
      reads this
      ensures r.Some? ==> r.value in bookings && r.value.id == id
      ensures Valid() ==> (r.Some? <==> 1 <= id < nextId)
    {
      ReadFacts(State(), id);
      Store.GetBooking(State(), id)
    }

    /** `getAllBookings`: a snapshot, in creation order, ids 1, 2, 3, ... */
    function GetAllBookings(): (r: seq<Booking>)
      reads this
      ensures Valid() ==> |r| == nextId - 1 && forall i :: 0 <= i < |r| ==> r[i].id == i + 1
    {
      bookings
    }

    /**
     * `getBookingEvents`: the events of one booking in log order, empty exactly
     * for an unknown id, ending with the event that set the booking's status.
     */
    function GetBookingEvents(id: int): (r: seq<Event>)
      reads this
      ensures forall e :: e in r <==> e in events && e.bookingId == id
      ensures Valid() ==> IdsIncreasing(r) && (r == [] <==> GetBooking(id).None?)
      ensures Valid() && r != [] ==> GetBooking(id).Some? && r[|r| - 1].toStatus == GetBooking(id).value.status
    {
      ReadFacts(State(), id);
      EventsForMembers(events, id);
      Store.GetBookingEvents(State(), id)
    }

    /** `getAllEvents`: a snapshot of the whole log, oldest first. */
    function GetAllEvents(): (r: seq<Event>)
      reads this
      ensures Valid() ==> |r| == nextEventId - 1 && IdsIncreasing(r)
    {
      ReadFacts(State(), 0);
      events
    }
  }

  /** What the invariant gives the read operations. */
  lemma ReadFacts(st: StoreState, id: int)
    ensures Inv(st) ==>
              && (GetBooking(st, id).Some? <==> 1 <= id < st.nextId)
              && IdsIncreasing(st.events)
              && IdsIncreasing(GetBookingEvents(st, id))
              && (GetBookingEvents(st, id) == [] <==> GetBooking(st, id).None?)
              && (GetBooking(st, id).Some? ==>
                    var evs := GetBookingEvents(st, id);
                    evs != [] && evs[|evs| - 1].toStatus == GetBooking(st, id).value.status)
  {
    if Inv(st) {
      GetBookingByIndex(st, id);
      EventIdsIncrease(st, id);
      BookingEventsEmptyIffUnknown(st, id);
      if GetBooking(st, id).Some? {
        BookingMatchesLatestEvent(st, id);
      }
    }
  }
}
