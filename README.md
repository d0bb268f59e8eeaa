# Booking lifecycle store

This project models the in-memory store behind the home-services booking
service, `server/store.js`. The store keeps bookings, each with a status
that moves through a fixed state machine:

- PENDING → ASSIGNED or CANCELLED
- ASSIGNED → IN_PROGRESS, CANCELLED or FAILED
- IN_PROGRESS → COMPLETED or FAILED
- COMPLETED, CANCELLED and FAILED are terminal and allow no further move.

Next to the bookings the store keeps an append-only event log. There is one
creation event per booking and one event per accepted transition. Bookings
and events get ids from two counters that start at 1.

The project has these modules:

- `Wrappers` defines `Option` and `Result`.
- `Lifecycle` holds the `TRANSITIONS` table, `TERMINAL_STATES` and
  `isTerminalState`. The table is kept as data (`Transitions`). Status names
  arrive as strings and are parsed, so a name outside the table is a value
  the model handles.
- `Records` holds the booking and event records, and the truthiness that
  the source uses when it tests `providerId`.
- `EventLog` holds the filter behind `getBookingEvents` and the order of
  event ids.
- `History` is a reference definition written independently of the store.
  It rebuilds a booking by replaying its events, and it characterises the
  event sequences that replay. These are the histories that form a path
  through the table, starting from a creation event.
- `Store` models the store as a state-transition system on a value
  `StoreState`. It defines `LogEvent`, `CreateBooking`, `GetBooking`,
  `TransitionBooking` and `GetBookingEvents`; `getAllBookings` and
  `getAllEvents` are the state's two tables, and `isTerminalState` is in
  `Lifecycle`. It also defines the
  invariant `Inv` that every reachable state satisfies, and the properties
  that follow from `Inv`.
  - `Inv` says:
    - ids are 1, 2, 3, … in list order;
    - every event belongs to an existing booking;
    - every booking is exactly what replaying its own events gives.
  - The properties proved from it:
    - terminal states are closed;
    - a booking has at most four events;
    - the booking's status is its latest event's target;
    - the provider is the one given when the booking entered ASSIGNED;
    - the store only ever appends.
- `StoreObject` is the store in the source's own form. It is a class whose
  two tables and two counters are updated in place by methods that follow
  the source step by step. Each method is proved equal to the matching
  `Store` function. Each public mutating method (`CreateBooking` and
  `TransitionBooking`) keeps `Valid()`, which is `Store.Inv`; `LogEvent` is
  only called by them, between a booking update and the end of the call.
- `Scenarios` contains two concrete runs of the store. The first gives every
  intermediate state exactly. The second gives the ids and owners of its
  three events, in call order.

Errors that the source throws become `Err` values. A thrown call leaves the
state unchanged, which is also true of the source: both checks run before
anything is written.

## Model

| member | source | states |
|---|---|---|
| Lifecycle.Parse | server/store.js:8-15 | A status name is recognised exactly when it is one of the six keys of the table. The recognised status prints back as that same name. |
| Lifecycle.Transitions | server/store.js:8-15 | The table: each status lists its allowed targets without repeats. No status lists itself or PENDING, and the list is empty exactly for COMPLETED, CANCELLED and FAILED. |
| Lifecycle.IncludesIffAllowed | server/store.js:62 | `TRANSITIONS[current].includes(newStatus)` holds exactly when the name parses to a status that the table allows from `current`. |
| Lifecycle.IsTerminalState | server/store.js:17 | A name is one of the terminal states exactly when it names a status whose list of allowed targets is empty. |
| Lifecycle.TerminalStatesMatchTable | server/store.js:17 | `TERMINAL_STATES` names exactly the statuses whose table entry is empty. |
| Lifecycle.TerminalIsClosed | server/store.js:112-114 | No transition is allowed out of a status that `isTerminalState` accepts. |
| Lifecycle.AllowedMovesForward | server/store.js:8-15 | Every allowed move strictly increases a rank. So the table is acyclic and nothing ever returns to PENDING. |
| EventLog.EventsFor | server/store.js:91 | `events.filter(e => e.bookingId === bookingId)`: the result is never longer than the log. Its members, order and behaviour on an appended event are given by the three lemmas that follow. |
| EventLog.EventsForMembers | server/store.js:90-92 | An event is in the filtered list exactly when it is in the log and carries that booking id. |
| EventLog.EventsForAppend | server/store.js:90-92 | Filtering a log extended by one event gives the old result, plus that event when its booking id matches. |
| EventLog.EventsForKeepsOrder | server/store.js:90-92 | Filtering keeps event ids increasing, so a booking's events come oldest first. |
| History.Replay | server/store.js:19-42 | A replayed booking takes its status and `updatedAt` from the latest event and its `createdAt` from the first. |
| History.ReplayIds | server/store.js:33-39 | Every event of a history that replays carries the id of the booking it rebuilds. |
| History.ReplayIffValidHistory | server/store.js:52-88 | Replay succeeds exactly on sequences made of a creation event followed by events that each leave the previous target along the table. |
| History.HistoryIsShort | server/store.js:8-15 | A valid history has at most four events. |
| History.ReplayProvider | server/store.js:74-76 | The replayed `providerId` is the truthy provider given on entering ASSIGNED, and null otherwise. A booking still PENDING has only its creation event. |
| Store.JoinEmptyIff | server/store.js:65 | Joining non-empty names gives the empty string exactly when there are no names. |
| Store.ValidListEmptyIffTerminal | server/store.js:63-66 | The list of valid transitions in the error message is empty exactly when the current status is terminal. |
| Store.Message | server/store.js:56-66 | The text of a thrown error is "Booking not found" exactly for NotFound, so the two errors can always be told apart by their text. |
| Store.MessageBareIffTerminal | server/store.js:63-66 | The InvalidTransition text ends right after "Valid transitions: " exactly when the current status is terminal. |
| Store.FindIndex | server/store.js:44-46 | The result is the first index holding that id. No result means no booking has that id. |
| Store.GetBooking | server/store.js:44-46 | A found booking is in the store and has the requested id. Nothing is found exactly when no booking has that id. |
| Store.GetBookingEvents | server/store.js:90-92 | An event is returned exactly when it is in the log and belongs to that booking. |
| Store.LogEvent | server/store.js:98-110 | The event takes the current event counter and is appended to the log. The counter moves on by one, and the bookings are untouched. |
| Store.CreateBooking | server/store.js:19-42 | The new PENDING booking takes `nextId`, has no provider, and uses one clock reading for `createdAt` and `updatedAt`. It is appended together with its creation event, and both counters move on. |
| Store.CreateBookingAsWritten | server/store.js:19-42 | The code as written: the first clock reading becomes `createdAt` and the creation event's timestamp, and the second becomes `updatedAt`. The booking and its event are appended and both counters move on. |
| Store.Advance | server/store.js:70-76 | The accepted booking takes the requested status and the new `updatedAt` and keeps its id and creation fields. Its provider becomes the given one when it enters ASSIGNED with a truthy value, and is left as it was otherwise. |
| Store.AdvanceIsStep | server/store.js:70-85 | For an allowed move, the updated booking is exactly what replaying the logged event on the old booking gives. |
| Store.TransitionBooking | server/store.js:52-88 | An unknown id gives NotFound, and only then. A target not listed for the current status gives InvalidTransition carrying the current status, the requested name and the listed targets, and only then. Either error leaves the state unchanged. Success replaces the found booking in place by the result, which has the requested status, and appends its event. |
| Store.GetBookingByIndex | server/store.js:44-46 | When ids were handed out as 1, 2, 3, … in list order, booking `id` exists exactly for `1 <= id < nextId`, and it sits at position `id - 1`. |
| Store.CreateBookingKeepsInv | server/store.js:19-42 | `createBooking` preserves the invariant. |
| Store.CreateAsWrittenKeepsInvIff | server/store.js:27-37 | With the two clock readings of the source, the invariant survives exactly when both readings agree. |
| Store.TransitionShape | server/store.js:69-87 | A successful transition replaces exactly booking `id`, at position `id - 1`, and appends one event that records the old and new status. Replaying the old booking with that event gives the new one. An error returns the old state. |
| Store.AsWrittenBreaksReplay | server/store.js:27-37 | With two different clock readings, the new booking is not what its creation event replays to. |
| Store.TransitionBookingKeepsInv | server/store.js:52-88 | `transitionBooking`, rejected or not, preserves the invariant. |
| Store.BookingMatchesLatestEvent | server/store.js:70-85 | A booking's events form a valid history of at most four events. The booking's status and `updatedAt` are those of its latest event, and its provider is the one given on entering ASSIGNED. |
| Store.PendingHasNoProvider | server/store.js:26 | A booking still PENDING has a null `providerId`. |
| Store.BookingEventsEmptyIffUnknown | server/store.js:90-92 | `getBookingEvents` is empty exactly for ids that have no booking. |
| Store.EventIdsIncrease | server/store.js:98-110 | Event ids increase along the log and along every booking's events. |
| Store.TerminalRefusesEverything | server/store.js:59-67 | A booking in a terminal status rejects every requested status with an empty list of valid targets, and nothing changes. |
| Store.CreateLeavesOthersAlone | server/store.js:19-42 | Creating a booking leaves every existing booking and its events as they were. |
| Store.TransitionLeavesOthersAlone | server/store.js:52-88 | A transition of one booking leaves every other booking and its events as they were. |
| Store.ApplyKeepsInv | server/store.js:19-88 | Either mutating call preserves the invariant. |
| Store.RunKeepsInv | server/store.js:19-88 | Any sequence of calls preserves the invariant. |
| Store.ReachableInv | server/store.js:2-5 | Every state reachable from the empty store, with both counters at 1, satisfies the invariant. |
| Store.TransitionOnlyAppends | server/store.js:70-85 | A transition keeps the log as a prefix and the identity fields of every booking. It never clears a recorded provider. |
| Store.ApplyOnlyAppends | server/store.js:19-88 | Either mutating call only extends the store. |
| Store.RunOnlyAppends | server/store.js:19-110 | Over any sequence of calls the log is append-only and no booking is removed. Creation fields never change, and a recorded provider is never cleared. |
| Store.TerminalStaysPutStep | server/store.js:59-67 | One call leaves a terminal booking and its events unchanged. |
| Store.TerminalStaysPut | server/store.js:12-17 | Once terminal, a booking keeps its record and its events under every later sequence of calls. |
| StoreObject.BookingStore.constructor | server/store.js:2-5 | Both tables start empty and both counters start at 1. |
| StoreObject.BookingStore.LogEvent | server/store.js:98-110 | The log grows by the event, which carries the old counter. The counter is incremented, and the bookings are untouched. |
| StoreObject.BookingStore.CreateBooking | server/store.js:19-42 | Pushes the new PENDING booking and its creation event, and increments `nextId`. The result equals `Store.CreateBooking`, and `Valid()` is kept. |
| StoreObject.BookingStore.TransitionBooking | server/store.js:52-88 | An error changes nothing. Success rewrites exactly the booking at `id - 1` and appends its event. The result equals `Store.TransitionBooking`, and `Valid()` is kept. |
| StoreObject.BookingStore.GetBooking | server/store.js:44-46 | A found booking is in the store with the requested id. In a valid store, a booking exists exactly for the ids handed out so far. |
| StoreObject.BookingStore.GetAllBookings | server/store.js:48-50 | Returns every booking in creation order, with ids 1 to `nextId - 1`. |
| StoreObject.BookingStore.GetBookingEvents | server/store.js:90-92 | Returns only that booking's events, oldest first. The list is empty exactly for an unknown id, and it ends with the event that set the booking's current status. |
| StoreObject.BookingStore.GetAllEvents | server/store.js:94-96 | Returns the whole log with increasing ids, one event per id handed out. |
| StoreObject.ReadFacts | server/store.js:44-96 | In a reachable state the read operations return consistent answers: ids, the order of events, and the latest status. |
| Scenarios.LifecycleScenario | server/store.js:19-88 | A booking is created, assigned to P1, refused a jump to COMPLETED, then started. A transition of id 999 is not found. Every state and the three logged events are given exactly. |
| Scenarios.LifecycleScenarioLog | server/store.js:90-92 | At the end of that run, the booking's events are its three events, oldest first, and id 999 has none. |
| Scenarios.InterleavedScenario | server/store.js:98-110 | Events of two bookings share one id counter, in call order. |

## Left out

- The HTTP layer, the request validation in `server/index.js`, and the client are not part of this model. Only `server/store.js` is modelled.
- Store.CreateBooking: the store checks nothing about the customer name, service type or scheduled time, so empty values are accepted. The model follows the code.
- Clock readings are opaque `Timestamp` strings supplied by the caller. The model does not state that `updatedAt` never precedes `createdAt`, because that depends on the real clock.
- Store.CreateBooking: it reads the clock once, where the source reads it twice. See Findings. `Store.CreateBookingAsWritten` keeps the two readings.
- JavaScript aliasing is not modelled. `getBooking` and `transitionBooking` return the live booking object, so a caller could mutate the store through it. The model returns values.
- `newStatus` is modelled as a string, and `providerId` and `reason` as strings or absent. Other JSON values (numbers, objects) reaching the store are not modelled. `providerId` is truthy when present and non-empty.
- `metadata || {}` in `logEvent` always sees a metadata object, because both callers pass one. The empty default is not modelled.
- Ids are mathematical integers. `parseInt` and `NaN` handling belong to the HTTP layer. The counters' growth beyond 2^53 is not modelled.
- The source's single thread of execution is taken as given. Nothing about concurrency is modelled.

## Findings

| source | as written | input that shows it | evidently intended | confidence | as-written member | corrected member |
|---|---|---|---|---|---|---|
| server/store.js:27-28 | `createdAt` and `updatedAt` each call `new Date()`, and the creation event takes `createdAt` | a clock that ticks between the two readings (t0, then t1) gives a new booking whose `updatedAt` (t1) differs from the timestamp of its only event (t0); `Store.AsWrittenBreaksReplay` proves that such a booking no longer replays from its events | one clock reading for both fields, so that a booking's `updatedAt` is always the timestamp of its latest event | not executed | Store.CreateBookingAsWritten | Store.CreateBooking |
