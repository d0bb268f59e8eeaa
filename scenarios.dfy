/** Two runs of the store on concrete calls, with their outcomes worked out. */
module Scenarios {
  import opened Wrappers
  import opened Lifecycle
  import opened Records
  import opened EventLog
  import opened Store

  /**
   * Alice's plumbing booking: assigned to provider P1, refused a jump to
   * COMPLETED (which changes nothing and consumes no event id), started, and
   * then a transition of an unknown id. Each step's whole state is given.
   */
  lemma LifecycleScenario()
    ensures
      var created := Booking(1, "Alice", "Plumbing", "2024-01-15T10:00", Pending, None, "t0", "t0");
      var withProvider := created.(status := Assigned, providerId := Some("P1"), updatedAt := "t1");
      var started := withProvider.(status := InProgress, updatedAt := "t3");
      var e1 := Event(1, 1, None, Pending, "t0", CreationMeta("Alice", "Plumbing", "2024-01-15T10:00"));
      var e2 := Event(2, 1, Some(Pending), Assigned, "t1", TransitionMeta(Some("P1"), None));
      var e3 := Event(3, 1, Some(Assigned), InProgress, "t3", TransitionMeta(None, None));
      var s1 := StoreState([created], [e1], 2, 2);
      var s2 := StoreState([withProvider], [e1, e2], 2, 3);
      var s4 := StoreState([started], [e1, e2, e3], 2, 4);
      && CreateBooking(Initial, "Alice", "Plumbing", "2024-01-15T10:00", "t0") == (s1, created)
      && TransitionBooking(s1, 1, "ASSIGNED", Some("P1"), None, "t1") == (s2, Ok(withProvider))
      && TransitionBooking(s2, 1, "COMPLETED", None, None, "t2")
         == (s2, Err(InvalidTransition(Assigned, "COMPLETED", [InProgress, Cancelled, Failed])))
      && TransitionBooking(s2, 1, "IN_PROGRESS", None, None, "t3") == (s4, Ok(started))
      && TransitionBooking(s4, 999, "ASSIGNED", None, None, "t4") == (s4, Err(NotFound))
  {
    var created := Booking(1, "Alice", "Plumbing", "2024-01-15T10:00", Pending, None, "t0", "t0");
    var withProvider := created.(status := Assigned, providerId := Some("P1"), updatedAt := "t1");
    var started := withProvider.(status := InProgress, updatedAt := "t3");
    var e1 := Event(1, 1, None, Pending, "t0", CreationMeta("Alice", "Plumbing", "2024-01-15T10:00"));
    var e2 := Event(2, 1, Some(Pending), Assigned, "t1", TransitionMeta(Some("P1"), None));
    var e3 := Event(3, 1, Some(Assigned), InProgress, "t3", TransitionMeta(None, None));
    var s1 := StoreState([created], [e1], 2, 2);
    var s2 := StoreState([withProvider], [e1, e2], 2, 3);
    var s4 := StoreState([started], [e1, e2, e3], 2, 4);
    assert FindIndex([created], 1) == Some(0);
    assert FindIndex([withProvider], 1) == Some(0);
    assert FindIndex([started], 999) == None;
    assert TargetNames(Pending) == ["ASSIGNED", "CANCELLED"];
    assert TargetNames(Assigned) == ["IN_PROGRESS", "CANCELLED", "FAILED"];
    assert Parse("ASSIGNED") == Some(Assigned);
    assert Parse("IN_PROGRESS") == Some(InProgress);
    assert "COMPLETED" !in TargetNames(Assigned);
    assert "ASSIGNED" in TargetNames(Pending);
    assert "IN_PROGRESS" in TargetNames(Assigned);
    assert Truthy(Some("P1"));
    assert [created][0 := withProvider] == [withProvider];
    assert [withProvider][0 := started] == [started];
    assert [e1] + [e2] == [e1, e2];
    assert [e1, e2] + [e3] == [e1, e2, e3];
    assert Advance(created, Assigned, Some("P1"), "t1") == withProvider;
    assert Advance(withProvider, InProgress, None, "t3") == started;
    assert [e1, e2, e3][1..] == [e2, e3] && [e2, e3][1..] == [e3];
    assert Initial.bookings + [created] == [created] && Initial.events + [e1] == [e1];
  }

  /** The log at the end of that run: the booking's three events, oldest first, and none for id 999. */
  lemma LifecycleScenarioLog()
    ensures
      var created := Booking(1, "Alice", "Plumbing", "2024-01-15T10:00", Pending, None, "t0", "t0");
      var started := created.(status := InProgress, providerId := Some("P1"), updatedAt := "t3");
      var e1 := Event(1, 1, None, Pending, "t0", CreationMeta("Alice", "Plumbing", "2024-01-15T10:00"));
      var e2 := Event(2, 1, Some(Pending), Assigned, "t1", TransitionMeta(Some("P1"), None));
      var e3 := Event(3, 1, Some(Assigned), InProgress, "t3", TransitionMeta(None, None));
      var s4 := StoreState([started], [e1, e2, e3], 2, 4);
      && GetBookingEvents(s4, 1) == [e1, e2, e3]
      && GetBookingEvents(s4, 999) == []
  {
    var e2 := Event(2, 1, Some(Pending), Assigned, "t1", TransitionMeta(Some("P1"), None));
    var e3 := Event(3, 1, Some(Assigned), InProgress, "t3", TransitionMeta(None, None));
    assert [e3][1..] == [];
    assert EventsFor([e3], 1) == [e3];
    assert EventsFor([e2, e3], 1) == [e2, e3];
  }

  /** Event ids follow the order of the calls across bookings: A, B, then A again. */
  lemma InterleavedScenario()
    ensures
      var (s1, a) := CreateBooking(Initial, "A", "Cleaning", "2024-01-15T10:00", "t0");
      var (s2, b) := CreateBooking(s1, "B", "Painting", "2024-01-16T10:00", "t1");
      var (s3, r) := TransitionBooking(s2, a.id, "CANCELLED", None, Some("customer request"), "t2");
      && r.Ok?
      && |s3.events| == 3
      && s3.events[0].id == 1 && s3.events[0].bookingId == a.id
      && s3.events[1].id == 2 && s3.events[1].bookingId == b.id
      && s3.events[2].id == 3 && s3.events[2].bookingId == a.id && s3.events[2].toStatus == Cancelled
  {
    var (s1, a) := CreateBooking(Initial, "A", "Cleaning", "2024-01-15T10:00", "t0");
    var (s2, b) := CreateBooking(s1, "B", "Painting", "2024-01-16T10:00", "t1");
    assert FindIndex(s2.bookings, 1) == Some(0);
    assert TargetNames(Pending) == ["ASSIGNED", "CANCELLED"];
    assert Parse("CANCELLED") == Some(Cancelled);
  }
}
