/**
 * The booking store of server/store.js as a state-transition system: the two
 * tables and the two counters form a `StoreState` value, and each exported
 * function of the source becomes a function from the old state (and its
 * arguments) to the new state and its result. `Inv` is what every reachable
 * state satisfies; the lemmas below prove that every operation keeps it and
 * what it means for the bookings and the log.
 */
module Store {
  import opened Wrappers
  import opened Lifecycle
  import opened Records
  import opened EventLog
  import opened History

  /** The two errors `transitionBooking` throws. */
  datatype Error =
    | NotFound
    | InvalidTransition(current: Status, requested: string, valid: seq<Status>)

  /** `Array.prototype.join`. */
  function Join(parts: seq<string>, sep: string): string
  {
    if parts == [] then ""
    else if |parts| == 1 then parts[0]
    else parts[0] + sep + Join(parts[1..], sep)
  }

  /** The text of the thrown `Error`. */
  function Message(e: Error): (r: string)
    ensures r == "Booking not found" <==> e.NotFound?
  {
    match e
    case NotFound => "Booking not found"
    case InvalidTransition(current, requested, valid) =>
      "Invalid transition from " + Name(current) + " to " + requested + ". "
      + "Valid transitions: " + Join(Names(valid), ", ")
  }

  /** Joining non-empty names gives the empty text only for the empty list. */
  lemma {:induction false} JoinEmptyIff(parts: seq<string>, sep: string)
    requires forall k :: 0 <= k < |parts| ==> parts[k] != ""
    ensures Join(parts, sep) == "" <==> parts == []
  {
    if |parts| > 1 {
      assert |Join(parts, sep)| >= |parts[0]|;
    }
  }

  /**
   * The list of valid targets that ends the InvalidTransition message is
   * empty exactly when the current status is terminal.
   */
  lemma ValidListEmptyIffTerminal(current: Status)
    ensures Join(TargetNames(current), ", ") == "" <==> IsTerminalState(Name(current))
  {
    JoinEmptyIff(TargetNames(current), ", ");
    ParseName(current);
  }

  /**
   * The text of the InvalidTransition error for a booking in `current` stops
   * right after "Valid transitions: " exactly when `current` is terminal.
   */
  lemma MessageBareIffTerminal(current: Status, requested: string)
    ensures var head := "Invalid transition from " + Name(current) + " to " + requested + ". "
                        + "Valid transitions: ";
            Message(InvalidTransition(current, requested, Transitions(current))) == head
            <==> IsTerminalState(Name(current))
  {
    var head := "Invalid transition from " + Name(current) + " to " + requested + ". "
                + "Valid transitions: ";
    var list := Join(TargetNames(current), ", ");
    ValidListEmptyIffTerminal(current);
    assert Message(InvalidTransition(current, requested, Transitions(current))) == head + list;
    assert |head + list| == |head| + |list|;
    if list == "" {
      assert head + list == head;
    }
  }

  /** The module-level variables of the store. */
  datatype StoreState = StoreState(
    bookings: seq<Booking>,
    events: seq<Event>,
    nextId: int,
    nextEventId: int)

  /** The store as the module starts: empty tables, both counters at 1. */
  const Initial := StoreState([], [], 1, 1)

  /** The index of the first booking with the given id (what `find` stops at). */
  function FindIndex(bookings: seq<Booking>, id: int): (r: Option<nat>)
    ensures r.Some? ==> r.value < |bookings| && bookings[r.value].id == id
    ensures r.Some? ==> forall j :: 0 <= j < r.value ==> bookings[j].id != id
    ensures r.None? ==> forall j :: 0 <= j < |bookings| ==> bookings[j].id != id
  {
    if bookings == [] then None
    else if bookings[0].id == id then Some(0)
    else
      match FindIndex(bookings[1..], id)
      case None => None
      case Some(i) => Some(i + 1)
  }

  /** `getBooking`: the first booking with that id, or `undefined`. */
  function GetBooking(st: StoreState, id: int): (r: Option<Booking>)
    ensures r.Some? ==> r.value in st.bookings && r.value.id == id
    ensures r.None? <==> forall b :: b in st.bookings ==> b.id != id
  {
    match FindIndex(st.bookings, id)
    case None => None
    case Some(i) => Some(st.bookings[i])
  }

  /** `getBookingEvents`: the log filtered by booking id. */
  function GetBookingEvents(st: StoreState, bookingId: int): (r: seq<Event>)
    ensures forall e :: e in r <==> e in st.events && e.bookingId == bookingId
  {
    EventsForMembers(st.events, bookingId);
    EventsFor(st.events, bookingId)
  }

  /** `logEvent`: stamps the event with the next event id and appends it. */
  function LogEvent(st: StoreState, bookingId: int, fromStatus: Option<Status>, toStatus: Status,
                    timestamp: Timestamp, metadata: Metadata): (r: (StoreState, Event))
    ensures r.1.id == st.nextEventId && r.0.nextEventId == st.nextEventId + 1
    ensures r.0.events == st.events + [r.1]
    ensures r.0.bookings == st.bookings && r.0.nextId == st.nextId
    ensures r.1 == Event(r.1.id, bookingId, fromStatus, toStatus, timestamp, metadata)
  {
    var e := Event(st.nextEventId, bookingId, fromStatus, toStatus, timestamp, metadata);
    (st.(events := st.events + [e], nextEventId := st.nextEventId + 1), e)
  }

  /**
   * `createBooking` as written: the clock is read once for `createdAt` and
   * again for `updatedAt`, and the creation event copies `createdAt`.
   */
  function CreateBookingAsWritten(st: StoreState, customerName: string, serviceType: string,
                                  scheduledTime: string, createdAt: Timestamp,
                                  updatedAt: Timestamp): (r: (StoreState, Booking))
    ensures r.1 == Booking(st.nextId, customerName, serviceType, scheduledTime, Pending, None, createdAt, updatedAt)
    ensures r.0.bookings == st.bookings + [r.1] && r.0.nextId == st.nextId + 1
    ensures r.0.events == st.events + [Event(st.nextEventId, r.1.id, None, Pending, createdAt,
                                             CreationMeta(customerName, serviceType, scheduledTime))]
    ensures r.0.nextEventId == st.nextEventId + 1
  {
    var b := Booking(st.nextId, customerName, serviceType, scheduledTime,
                     Pending, None, createdAt, updatedAt);
    var (st', _) := LogEvent(st.(bookings := st.bookings + [b], nextId := st.nextId + 1),
                             b.id, None, Pending, b.createdAt,
                             CreationMeta(customerName, serviceType, scheduledTime));
    (st', b)
  }

  /**
   * `createBooking` with one clock reading `now` for both timestamps: a PENDING
   * booking with the old `nextId` and no provider is appended, and exactly one
   * creation event for it is logged.
   */
  function CreateBooking(st: StoreState, customerName: string, serviceType: string,
                         scheduledTime: string, now: Timestamp): (r: (StoreState, Booking))
    ensures r.1 == Booking(st.nextId, customerName, serviceType, scheduledTime, Pending, None, now, now)
    ensures r.0.bookings == st.bookings + [r.1] && r.0.nextId == st.nextId + 1
    ensures r.0.events == st.events + [Event(st.nextEventId, r.1.id, None, Pending, r.1.createdAt,
                                             CreationMeta(customerName, serviceType, scheduledTime))]
    ensures r.0.nextEventId == st.nextEventId + 1
  {
    CreateBookingAsWritten(st, customerName, serviceType, scheduledTime, now, now)
  }

  /** The booking after an accepted transition to `target` at time `now`. */
  function Advance(b: Booking, target: Status, providerId: Option<string>, now: Timestamp): (r: Booking)
    ensures r.status == target && r.updatedAt == now
    ensures r.id == b.id && r.customerName == b.customerName && r.serviceType == b.serviceType
    ensures r.scheduledTime == b.scheduledTime && r.createdAt == b.createdAt
    ensures r.providerId != b.providerId ==> target == Assigned && Truthy(r.providerId)
    ensures target == Assigned && Truthy(providerId) ==> r.providerId == providerId
    ensures !(target == Assigned && Truthy(providerId)) ==> r.providerId == b.providerId
  {
    b.(status := target,
       updatedAt := now,
       providerId := if target == Assigned && Truthy(providerId) then providerId else b.providerId)
  }

  /**
   * The booking update of `transitionBooking` is the replay step of the event
   * it logs: the rule for the provider has one home, `History.Step`.
   */
  lemma AdvanceIsStep(b: Booking, target: Status, providerId: Option<string>, reason: Option<string>,
                      now: Timestamp, eventId: int)
    requires Allowed(b.status, target)
    ensures Step(b, Event(eventId, b.id, Some(b.status), target, now, TransitionMeta(providerId, reason)))
            == Some(Advance(b, target, providerId, now))
  {
  }

  /**
   * `transitionBooking`. An unknown id throws NotFound; a target missing from
   * `TRANSITIONS[current]` throws InvalidTransition naming the current status,
   * the requested target and the valid ones; either way nothing changes.
   * Otherwise the booking is updated in place and one event is logged.
   */
  function TransitionBooking(st: StoreState, id: int, newStatus: string, providerId: Option<string>,
                             reason: Option<string>, now: Timestamp): (r: (StoreState, Result<Booking, Error>))
    ensures r.1.Err? ==> r.0 == st
    ensures r.1 == Err(NotFound) <==> GetBooking(st, id).None?
    ensures r.1.Err? && r.1.error.InvalidTransition? <==>
            GetBooking(st, id).Some? && (Parse(newStatus).None? || !Allowed(GetBooking(st, id).value.status, Parse(newStatus).value))
    ensures r.1.Err? && r.1.error.InvalidTransition? ==>
            r.1.error == InvalidTransition(GetBooking(st, id).value.status, newStatus,
                                           Transitions(GetBooking(st, id).value.status))
    ensures r.1.Ok? ==> r.1.value.id == id && Name(r.1.value.status) == newStatus
    ensures r.1.Ok? ==> |r.0.bookings| == |st.bookings| && r.0.nextId == st.nextId
    ensures r.1.Ok? ==> FindIndex(st.bookings, id).Some?
                        && r.0.bookings == st.bookings[FindIndex(st.bookings, id).value := r.1.value]
    ensures r.1.Ok? ==> r.0.events == st.events + [Event(st.nextEventId, id, Some(GetBooking(st, id).value.status),
                                                         r.1.value.status, r.1.value.updatedAt,
                                                         TransitionMeta(providerId, reason))]
    ensures r.1.Ok? ==> r.0.nextEventId == st.nextEventId + 1
  {
    match FindIndex(st.bookings, id)
    case None => (st, Err(NotFound))
    case Some(i) =>
      var current := st.bookings[i].status;
      IncludesIffAllowed(current, newStatus);
      if newStatus !in TargetNames(current) then
        (st, Err(InvalidTransition(current, newStatus, Transitions(current))))
      else
        var target := Parse(newStatus).value;
        var b := Advance(st.bookings[i], target, providerId, now);
        var (st', _) := LogEvent(st.(bookings := st.bookings[i := b]), id, Some(current), target,
                                 b.updatedAt, TransitionMeta(providerId, reason));
        (st', Ok(b))
  }

  /**
   * What every state the store reaches satisfies: booking ids and event ids
   * are 1, 2, 3, ... in list order with the counters one past the last, every
   * event belongs to an existing booking, and every booking is exactly what
   * replaying its own events gives.
   */
  ghost predicate Inv(st: StoreState)
  {
    IdsAllocated(st) && Replayable(st.bookings, st.events)
  }

  /** Ids are handed out as 1, 2, 3, ... and every event belongs to an existing booking. */
  ghost predicate IdsAllocated(st: StoreState)
  {
    && st.nextId == |st.bookings| + 1
    && st.nextEventId == |st.events| + 1
    && (forall i :: 0 <= i < |st.bookings| ==> st.bookings[i].id == i + 1)
    && (forall j :: 0 <= j < |st.events| ==> st.events[j].id == j + 1)
    && (forall j :: 0 <= j < |st.events| ==> 1 <= st.events[j].bookingId <= |st.bookings|)
  }

  /** Every booking is what replaying its own events gives. */
  ghost predicate Replayable(bookings: seq<Booking>, events: seq<Event>)
  {
    forall id {:trigger EventsFor(events, id)} :: 1 <= id <= |bookings| ==>
      Replay(EventsFor(events, id)) == Some(bookings[id - 1])
  }

  lemma InitialInv()
    ensures Inv(Initial)
  {
  }

  /** A log none of whose events belongs to the booking has nothing for it. */
  lemma {:induction false} EventsForAbsent(es: seq<Event>, bookingId: int)
    requires forall j :: 0 <= j < |es| ==> es[j].bookingId != bookingId
    ensures EventsFor(es, bookingId) == []
  {
    if es != [] {
      EventsForAbsent(es[1..], bookingId);
    }
  }

  /** An event of another booking does not change that booking's events. */
  lemma EventsForUnaffected(es: seq<Event>, e: Event, bookingId: int)
    requires e.bookingId != bookingId
    ensures EventsFor(es + [e], bookingId) == EventsFor(es, bookingId)
  {
    EventsForAppend(es, e, bookingId);
    assert EventsFor(es, bookingId) + [] == EventsFor(es, bookingId);
  }

  /** An event of the booking itself replays as one more step. */
  lemma ReplayExtended(es: seq<Event>, e: Event, b: Booking)
    requires Replay(EventsFor(es, b.id)) == Some(b) && e.bookingId == b.id
    ensures Replay(EventsFor(es + [e], b.id)) == Step(b, e)
  {
    var h := EventsFor(es, b.id);
    EventsForAppend(es, e, b.id);
    assert EventsFor(es + [e], b.id) == h + [e];
    assert (h + [e])[..|h|] == h;
  }

  /** Appending a booking together with its creation event keeps every booking replayable. */
  lemma AppendKeepsReplayable(bookings: seq<Booking>, events: seq<Event>, e: Event, b: Booking)
    requires Replayable(bookings, events)
    requires e.bookingId == |bookings| + 1 && EventsFor(events, e.bookingId) == []
    requires Created(e) == Some(b)
    ensures Replayable(bookings + [b], events + [e])
  {
    var n := |bookings|;
    forall id | 1 <= id <= n + 1
      ensures Replay(EventsFor(events + [e], id)) == Some((bookings + [b])[id - 1])
    {
      if id == n + 1 {
        EventsForAppend(events, e, n + 1);
        assert EventsFor(events + [e], n + 1) == [e];
      } else {
        EventsForUnaffected(events, e, id);
        assert Replay(EventsFor(events, id)) == Some(bookings[id - 1]);
      }
    }
  }

  /** Replacing one booking by its state after one more of its events keeps every booking replayable. */
  lemma ReplaceKeepsReplayable(bookings: seq<Booking>, events: seq<Event>, i: int, e: Event, b': Booking)
    requires Replayable(bookings, events) && 0 <= i < |bookings|
    requires e.bookingId == i + 1 && Replay(EventsFor(events + [e], i + 1)) == Some(b')
    ensures Replayable(bookings[i := b'], events + [e])
  {
    forall id | 1 <= id <= |bookings|
      ensures Replay(EventsFor(events + [e], id)) == Some(bookings[i := b'][id - 1])
    {
      ReplacedStaysReplayable(bookings, events, i, e, b', id);
    }
  }

  lemma ReplacedStaysReplayable(bookings: seq<Booking>, events: seq<Event>, i: int, e: Event, b': Booking, id: int)
    requires Replayable(bookings, events) && 0 <= i < |bookings| && 1 <= id <= |bookings|
    requires e.bookingId == i + 1 && Replay(EventsFor(events + [e], i + 1)) == Some(b')
    ensures Replay(EventsFor(events + [e], id)) == Some(bookings[i := b'][id - 1])
  {
    if id != i + 1 {
      OtherStaysReplayable(bookings, events, e, id);
    }
  }

  /** An event of another booking leaves a booking replayable. */
  lemma OtherStaysReplayable(bookings: seq<Booking>, events: seq<Event>, e: Event, id: int)
    requires Replayable(bookings, events) && 1 <= id <= |bookings| && e.bookingId != id
    ensures Replay(EventsFor(events + [e], id)) == Some(bookings[id - 1])
  {
    EventsForUnaffected(events, e, id);
    assert Replay(EventsFor(events, id)) == Some(bookings[id - 1]);
  }

  /** Under the invariant, the booking with id `id` sits at index `id - 1`. */
  lemma GetBookingByIndex(st: StoreState, id: int)
    requires IdsAllocated(st)
    ensures GetBooking(st, id) == if 1 <= id <= |st.bookings| then Some(st.bookings[id - 1]) else None
  {
    var r := FindIndex(st.bookings, id);
    if 1 <= id <= |st.bookings| {
      assert st.bookings[id - 1].id == id;
    }
  }

  /** Creating a booking keeps the invariant. */
  lemma CreateBookingKeepsInv(st: StoreState, customerName: string, serviceType: string,
                              scheduledTime: string, now: Timestamp)
    requires Inv(st)
    ensures Inv(CreateBooking(st, customerName, serviceType, scheduledTime, now).0)
  {
    var (st', b) := CreateBooking(st, customerName, serviceType, scheduledTime, now);
    var n := |st.bookings|;
    var e := Event(st.nextEventId, n + 1, None, Pending, now,
                   CreationMeta(customerName, serviceType, scheduledTime));
    assert IdsAllocated(st') by {
      assert st'.bookings == st.bookings + [b] && st'.events == st.events + [e];
    }
    assert Replayable(st'.bookings, st'.events) by {
      EventsForAbsent(st.events, n + 1);
      AppendKeepsReplayable(st.bookings, st.events, e, b);
    }
  }

  /**
   * With the two clock readings of the source, the invariant survives exactly
   * when both readings agree: otherwise the new booking's `updatedAt` is not
   * the timestamp of its only event.
   */
  lemma CreateAsWrittenKeepsInvIff(st: StoreState, customerName: string, serviceType: string,
                                   scheduledTime: string, createdAt: Timestamp, updatedAt: Timestamp)
    requires Inv(st)
    ensures Inv(CreateBookingAsWritten(st, customerName, serviceType, scheduledTime, createdAt, updatedAt).0)
            <==> createdAt == updatedAt
  {
    var (st', b) := CreateBookingAsWritten(st, customerName, serviceType, scheduledTime, createdAt, updatedAt);
    if createdAt == updatedAt {
      CreateBookingKeepsInv(st, customerName, serviceType, scheduledTime, createdAt);
    } else {
      AsWrittenBreaksReplay(st, customerName, serviceType, scheduledTime, createdAt, updatedAt);
    }
  }

  /** With two different clock readings the new booking is not what its creation event replays to. */
  lemma AsWrittenBreaksReplay(st: StoreState, customerName: string, serviceType: string,
                              scheduledTime: string, createdAt: Timestamp, updatedAt: Timestamp)
    requires IdsAllocated(st) && createdAt != updatedAt
    ensures var st' := CreateBookingAsWritten(st, customerName, serviceType, scheduledTime, createdAt, updatedAt).0;
            !Replayable(st'.bookings, st'.events)
  {
    var (st', b) := CreateBookingAsWritten(st, customerName, serviceType, scheduledTime, createdAt, updatedAt);
    var n := |st.bookings|;
    var e := Event(st.nextEventId, n + 1, None, Pending, createdAt,
                   CreationMeta(customerName, serviceType, scheduledTime));
    assert st'.events == st.events + [e] && st'.bookings[n] == b;
    EventsForAppend(st.events, e, n + 1);
    EventsForAbsent(st.events, n + 1);
    assert EventsFor(st'.events, n + 1) == [e];
    assert Replay(EventsFor(st'.events, n + 1)).value.updatedAt != b.updatedAt;
  }

  /** Replacing a booking by the result of one more of its own events keeps the invariant. */
  lemma ReplaceKeepsInv(st: StoreState, i: int, e: Event, b': Booking)
    requires Inv(st) && 0 <= i < |st.bookings|
    requires e.id == st.nextEventId && e.bookingId == i + 1 && b'.id == i + 1
    requires Step(st.bookings[i], e) == Some(b')
    ensures Inv(StoreState(st.bookings[i := b'], st.events + [e], st.nextId, st.nextEventId + 1))
  {
    ReplaceKeepsIds(st, i, e, b');
    ReplayExtended(st.events, e, st.bookings[i]);
    ReplaceKeepsReplayable(st.bookings, st.events, i, e, b');
  }

  lemma ReplaceKeepsIds(st: StoreState, i: int, e: Event, b': Booking)
    requires IdsAllocated(st) && 0 <= i < |st.bookings|
    requires e.id == st.nextEventId && e.bookingId == i + 1 && b'.id == i + 1
    ensures IdsAllocated(StoreState(st.bookings[i := b'], st.events + [e], st.nextId, st.nextEventId + 1))
  {
    var es := st.events + [e];
    assert forall j :: 0 <= j < |st.events| ==> es[j] == st.events[j];
  }

  /**
   * A successful transition replaces booking `id` by the result of stepping it
   * with the one event it appends.
   */
  lemma TransitionShape(st: StoreState, id: int, newStatus: string, providerId: Option<string>,
                        reason: Option<string>, now: Timestamp)
    requires IdsAllocated(st)
    ensures var (st', r) := TransitionBooking(st, id, newStatus, providerId, reason, now);
            r.Err? ==> st' == st
    ensures var (st', r) := TransitionBooking(st, id, newStatus, providerId, reason, now);
            r.Ok? ==>
              && 1 <= id <= |st.bookings| && r.value.id == id
              && var e := Event(st.nextEventId, id, Some(st.bookings[id - 1].status), r.value.status, now,
                                TransitionMeta(providerId, reason));
                 && st' == StoreState(st.bookings[id - 1 := r.value], st.events + [e], st.nextId, st.nextEventId + 1)
                 && Step(st.bookings[id - 1], e) == Some(r.value)
  {
    GetBookingByIndex(st, id);
    if 1 <= id <= |st.bookings| {
      var b := st.bookings[id - 1];
      IncludesIffAllowed(b.status, newStatus);
      if Parse(newStatus).Some? && Allowed(b.status, Parse(newStatus).value) {
        AdvanceIsStep(b, Parse(newStatus).value, providerId, reason, now, st.nextEventId);
      }
    }
  }

  /** A transition keeps the invariant. */
  lemma TransitionBookingKeepsInv(st: StoreState, id: int, newStatus: string, providerId: Option<string>,
                                  reason: Option<string>, now: Timestamp)
    requires Inv(st)
    ensures Inv(TransitionBooking(st, id, newStatus, providerId, reason, now).0)
  {
    var res := TransitionBooking(st, id, newStatus, providerId, reason, now);
    TransitionShape(st, id, newStatus, providerId, reason, now);
    if res.1.Ok? {
      var b' := res.1.value;
      var e := Event(st.nextEventId, id, Some(st.bookings[id - 1].status), b'.status, now,
                     TransitionMeta(providerId, reason));
      assert 1 <= id <= |st.bookings| && b'.id == id && Step(st.bookings[id - 1], e) == Some(b');
      assert res.0 == StoreState(st.bookings[id - 1 := b'], st.events + [e], st.nextId, st.nextEventId + 1);
      ReplaceKeepsInv(st, id - 1, e, b');
    }
  }

  /**
   * What the log says about each booking: its events form a path through the
   * table starting with the creation event, there are at most four of them,
   * the booking's status and `updatedAt` are those of the latest one, and its
   * `providerId` is the one given on entering ASSIGNED.
   */
  lemma BookingMatchesLatestEvent(st: StoreState, id: int)
    requires Inv(st) && GetBooking(st, id).Some?
    ensures var b := GetBooking(st, id).value;
            var evs := GetBookingEvents(st, id);
            && ValidHistory(evs)
            && |evs| <= 4
            && b.status == evs[|evs| - 1].toStatus
            && b.updatedAt == evs[|evs| - 1].timestamp
            && b.providerId == AssignedProvider(evs)
  {
    GetBookingByIndex(st, id);
    var evs := GetBookingEvents(st, id);
    ReplayIffValidHistory(evs);
    HistoryIsShort(evs);
    ReplayProvider(evs);
  }

  /** A booking still PENDING has no provider: only entering ASSIGNED sets one. */
  lemma PendingHasNoProvider(st: StoreState, id: int)
    requires Inv(st) && GetBooking(st, id).Some? && GetBooking(st, id).value.status == Pending
    ensures GetBooking(st, id).value.providerId == None
  {
    GetBookingByIndex(st, id);
    var evs := GetBookingEvents(st, id);
    ReplayProvider(evs);
    assert evs[1..] == [];
  }

  /** `getBookingEvents` is empty exactly for ids with no booking. */
  lemma BookingEventsEmptyIffUnknown(st: StoreState, id: int)
    requires Inv(st)
    ensures GetBookingEvents(st, id) == [] <==> GetBooking(st, id).None?
  {
    GetBookingByIndex(st, id);
    if GetBooking(st, id).None? {
      EventsForAbsent(st.events, id);
    } else {
      assert Replay(EventsFor(st.events, id)).Some?;
    }
  }

  /** Event ids increase along the whole log and along each booking's events. */
  lemma EventIdsIncrease(st: StoreState, id: int)
    requires Inv(st)
    ensures IdsIncreasing(st.events) && IdsIncreasing(GetBookingEvents(st, id))
  {
    EventsForKeepsOrder(st.events, id);
  }

  /**
   * Once a booking is in a terminal status, any requested transition of it is
   * refused with an empty list of valid targets and changes nothing.
   */
  lemma TerminalRefusesEverything(st: StoreState, id: int, newStatus: string, providerId: Option<string>,
                                  reason: Option<string>, now: Timestamp)
    requires GetBooking(st, id).Some? && IsTerminalState(Name(GetBooking(st, id).value.status))
    ensures var status := GetBooking(st, id).value.status;
            TransitionBooking(st, id, newStatus, providerId, reason, now)
            == (st, Err(InvalidTransition(status, newStatus, [])))
  {
    ParseName(GetBooking(st, id).value.status);
  }

  /** Creating a booking leaves every existing booking and its events as they were. */
  lemma CreateLeavesOthersAlone(st: StoreState, customerName: string, serviceType: string,
                                scheduledTime: string, now: Timestamp, id: int)
    requires Inv(st) && GetBooking(st, id).Some?
    ensures var st' := CreateBooking(st, customerName, serviceType, scheduledTime, now).0;
            GetBooking(st', id) == GetBooking(st, id) && GetBookingEvents(st', id) == GetBookingEvents(st, id)
  {
    var st' := CreateBooking(st, customerName, serviceType, scheduledTime, now).0;
    CreateBookingKeepsInv(st, customerName, serviceType, scheduledTime, now);
    GetBookingByIndex(st, id);
    GetBookingByIndex(st', id);
    EventsForUnaffected(st.events, st'.events[|st.events|], id);
  }

  /** A transition of one booking leaves every other booking and its events as they were. */
  lemma TransitionLeavesOthersAlone(st: StoreState, id: int, newStatus: string, providerId: Option<string>,
                                    reason: Option<string>, now: Timestamp, other: int)
    requires Inv(st) && other != id
    ensures var st' := TransitionBooking(st, id, newStatus, providerId, reason, now).0;
            GetBooking(st', other) == GetBooking(st, other)
            && GetBookingEvents(st', other) == GetBookingEvents(st, other)
  {
    var (st', r) := TransitionBooking(st, id, newStatus, providerId, reason, now);
    if r.Ok? {
      TransitionBookingKeepsInv(st, id, newStatus, providerId, reason, now);
      GetBookingByIndex(st, id);
      GetBookingByIndex(st, other);
      GetBookingByIndex(st', other);
      EventsForUnaffected(st.events, st'.events[|st.events|], other);
    }
  }

  /** A call to one of the two mutating operations, with the clock reading it takes. */
  datatype Call =
    | Create(customerName: string, serviceType: string, scheduledTime: string, now: Timestamp)
    | Transition(id: int, newStatus: string, providerId: Option<string>, reason: Option<string>, now: Timestamp)

  function Apply(st: StoreState, c: Call): StoreState
  {
    match c
    case Create(name, service, scheduled, now) => CreateBooking(st, name, service, scheduled, now).0
    case Transition(id, target, provider, reason, now) => TransitionBooking(st, id, target, provider, reason, now).0
  }

  /** The state after a sequence of calls, thrown errors included. */
  function Run(st: StoreState, calls: seq<Call>): StoreState
    decreases |calls|
  {
    if calls == [] then st else Run(Apply(st, calls[0]), calls[1..])
  }

  lemma ApplyKeepsInv(st: StoreState, c: Call)
    requires Inv(st)
    ensures Inv(Apply(st, c))
  {
    match c {
      case Create(name, service, scheduled, now) =>
        CreateBookingKeepsInv(st, name, service, scheduled, now);
      case Transition(id, target, provider, reason, now) =>
        TransitionBookingKeepsInv(st, id, target, provider, reason, now);
    }
  }

  /** Every sequence of calls from a state satisfying the invariant keeps it. */
  lemma {:induction false} RunKeepsInv(st: StoreState, calls: seq<Call>)
    requires Inv(st)
    ensures Inv(Run(st, calls))
    decreases |calls|
  {
    if calls != [] {
      ApplyKeepsInv(st, calls[0]);
      RunKeepsInv(Apply(st, calls[0]), calls[1..]);
    }
  }

  /** Every state reachable from the initial one satisfies the invariant. */
  lemma ReachableInv(calls: seq<Call>)
    ensures Inv(Run(Initial, calls))
  {
    InitialInv();
    RunKeepsInv(Initial, calls);
  }

  /**
   * `st'` extends `st`: the log is kept as a prefix, no booking is removed,
   * a booking's fields set at creation never change, and a provider once
   * recorded is never cleared.
   */
  ghost predicate Extends(st: StoreState, st': StoreState)
  {
    && |st.events| <= |st'.events| && st'.events[..|st.events|] == st.events
    && |st.bookings| <= |st'.bookings|
    && forall i :: 0 <= i < |st.bookings| ==> Keeps(st.bookings[i], st'.bookings[i])
  }

  /** `b'` is a later state of booking `b`. */
  predicate Keeps(b: Booking, b': Booking)
  {
    && b'.id == b.id
    && b'.customerName == b.customerName
    && b'.serviceType == b.serviceType
    && b'.scheduledTime == b.scheduledTime
    && b'.createdAt == b.createdAt
    && (b.providerId.Some? ==> b'.providerId == b.providerId)
  }

  lemma ExtendsTransitive(a: StoreState, b: StoreState, c: StoreState)
    requires Extends(a, b) && Extends(b, c)
    ensures Extends(a, c)
  {
    assert c.events[..|a.events|] == c.events[..|b.events|][..|a.events|];
  }

  /** A transition only extends the store. */
  lemma TransitionOnlyAppends(st: StoreState, id: int, newStatus: string, providerId: Option<string>,
                              reason: Option<string>, now: Timestamp)
    requires Inv(st)
    ensures Extends(st, TransitionBooking(st, id, newStatus, providerId, reason, now).0)
  {
    var (st', r) := TransitionBooking(st, id, newStatus, providerId, reason, now);
    if r.Ok? {
      GetBookingByIndex(st, id);
      var b := st.bookings[id - 1];
      IncludesIffAllowed(b.status, newStatus);
      var target := Parse(newStatus).value;
      if target == Assigned && b.providerId.Some? {
        AllowedMovesForward(b.status, Assigned);
        PendingHasNoProvider(st, id);
      }
      assert Keeps(b, Advance(b, target, providerId, now));
      assert st'.bookings == st.bookings[id - 1 := Advance(b, target, providerId, now)];
      assert st'.events[..|st.events|] == st.events;
    } else {
      assert st.events[..|st.events|] == st.events;
    }
  }

  /** One call only extends the store. */
  lemma ApplyOnlyAppends(st: StoreState, c: Call)
    requires Inv(st)
    ensures Extends(st, Apply(st, c))
  {
    var st' := Apply(st, c);
    match c {
      case Create(name, service, scheduled, now) =>
        assert st'.events[..|st.events|] == st.events;
        assert st'.bookings[..|st.bookings|] == st.bookings;
      case Transition(id, target, provider, reason, now) =>
        TransitionOnlyAppends(st, id, target, provider, reason, now);
    }
  }

  /** The store only grows, whatever sequence of calls it receives. */
  lemma {:induction false} RunOnlyAppends(st: StoreState, calls: seq<Call>)
    requires Inv(st)
    ensures Extends(st, Run(st, calls))
    decreases |calls|
  {
    if calls == [] {
      assert st.events[..|st.events|] == st.events;
    } else {
      var mid := Apply(st, calls[0]);
      ApplyOnlyAppends(st, calls[0]);
      ApplyKeepsInv(st, calls[0]);
      RunOnlyAppends(mid, calls[1..]);
      ExtendsTransitive(st, mid, Run(st, calls));
    }
  }

  /** One call leaves a booking in a terminal status, and its events, as they were. */
  lemma TerminalStaysPutStep(st: StoreState, c: Call, id: int)
    requires Inv(st) && GetBooking(st, id).Some?
    requires IsTerminalState(Name(GetBooking(st, id).value.status))
    ensures GetBooking(Apply(st, c), id) == GetBooking(st, id)
    ensures GetBookingEvents(Apply(st, c), id) == GetBookingEvents(st, id)
  {
    match c {
      case Create(name, service, scheduled, now) =>
        CreateLeavesOthersAlone(st, name, service, scheduled, now, id);
      case Transition(tid, target, provider, reason, now) =>
        if tid == id {
          TerminalRefusesEverything(st, id, target, provider, reason, now);
        } else {
          TransitionLeavesOthersAlone(st, tid, target, provider, reason, now, id);
        }
    }
  }

  /**
   * Terminal states are closed under every sequence of calls: a booking in a
   * terminal status keeps its record and its events whatever happens to the
   * store afterwards.
   */
  lemma {:induction false} TerminalStaysPut(st: StoreState, calls: seq<Call>, id: int)
    requires Inv(st) && GetBooking(st, id).Some?
    requires IsTerminalState(Name(GetBooking(st, id).value.status))
    ensures GetBooking(Run(st, calls), id) == GetBooking(st, id)
    ensures GetBookingEvents(Run(st, calls), id) == GetBookingEvents(st, id)
    decreases |calls|
  {
    if calls != [] {
      TerminalStaysPutStep(st, calls[0], id);
      ApplyKeepsInv(st, calls[0]);
      TerminalStaysPut(Apply(st, calls[0]), calls[1..], id);
    }
  }
}
