/**
 * One booking's history: the events the store logs for it, replayed from the
 * creation event onwards. Replaying is a reference definition of what the
 * store's bookings must be, written in terms of events rather than calls.
 */
module History {
  import opened Wrappers
  import opened Lifecycle
  import opened Records

  /** The shape of the event `createBooking` logs. */
  predicate IsCreation(e: Event)
  {
    e.fromStatus == None && e.toStatus == Pending && e.metadata.CreationMeta?
  }

  /** The shape of the event `transitionBooking` logs right after `prev`. */
  predicate Follows(prev: Event, e: Event)
  {
    && e.bookingId == prev.bookingId
    && e.fromStatus == Some(prev.toStatus)
    && Allowed(prev.toStatus, e.toStatus)
    && e.metadata.TransitionMeta?
  }

  /** A creation event followed by a chain of table-allowed transitions of the same booking. */
  ghost predicate ValidHistory(evs: seq<Event>)
  {
    && |evs| > 0
    && IsCreation(evs[0])
    && forall k :: 0 < k < |evs| ==> Follows(evs[k - 1], evs[k])
  }

  /** The booking a creation event describes. */
  function Created(e: Event): Option<Booking>
  {
    if IsCreation(e) then
      var m := e.metadata;
      Some(Booking(e.bookingId, m.customerName, m.serviceType, m.scheduledTime,
                   Pending, None, e.timestamp, e.timestamp))
    else None
  }

  /** The booking after one more event, if that event can follow it. */
  function Step(b: Booking, e: Event): Option<Booking>
  {
    if && e.bookingId == b.id
       && e.fromStatus == Some(b.status)
       && Allowed(b.status, e.toStatus)
       && e.metadata.TransitionMeta?
    then
      var provider :=
        if e.toStatus == Assigned && Truthy(e.metadata.providerId) then e.metadata.providerId
        else b.providerId;
      Some(b.(status := e.toStatus, providerId := provider, updatedAt := e.timestamp))
    else None
  }

  /**
   * The booking a history describes, or None when the history is not one the
   * store can produce. The booking's status and `updatedAt` are those of the
   * latest event, its `createdAt` that of the first.
   */
  function Replay(evs: seq<Event>): (r: Option<Booking>)
    ensures r.Some? ==> |evs| > 0
    ensures r.Some? ==> r.value.status == evs[|evs| - 1].toStatus
    ensures r.Some? ==> r.value.updatedAt == evs[|evs| - 1].timestamp
    ensures r.Some? ==> r.value.createdAt == evs[0].timestamp
    decreases |evs|
  {
    if |evs| == 0 then None
    else if |evs| == 1 then Created(evs[0])
    else
      match Replay(evs[..|evs| - 1])
      case None => None
      case Some(b) => Step(b, evs[|evs| - 1])
  }

  /** Every event of a history that replays carries the id of the booking it rebuilds. */
  lemma {:induction false} ReplayIds(evs: seq<Event>)
    requires Replay(evs).Some?
    ensures forall k :: 0 <= k < |evs| ==> evs[k].bookingId == Replay(evs).value.id
  {
    if |evs| > 1 {
      var init := evs[..|evs| - 1];
      ReplayIds(init);
      assert forall k :: 0 <= k < |evs| - 1 ==> evs[k] == init[k];
    }
  }

  /** Replay succeeds exactly on the histories that form a path through the table from creation. */
  lemma {:induction false} ReplayIffValidHistory(evs: seq<Event>)
    ensures Replay(evs).Some? <==> ValidHistory(evs)
  {
    if |evs| > 1 {
      var n := |evs|;
      var init := evs[..n - 1];
      ReplayIffValidHistory(init);
      assert forall k :: 0 <= k < n - 1 ==> init[k] == evs[k];
      if ValidHistory(evs) {
        assert ValidHistory(init) by {
          forall k | 0 < k < n - 1 ensures Follows(init[k - 1], init[k]) {
            assert Follows(evs[k - 1], evs[k]);
          }
        }
        assert Follows(evs[n - 2], evs[n - 1]);
      }
      if Replay(evs).Some? {
        assert ValidHistory(init);
        forall k | 0 < k < n ensures Follows(evs[k - 1], evs[k]) {
          if k < n - 1 {
            assert Follows(init[k - 1], init[k]);
          }
        }
      }
    }
  }

  /** Along a valid history the status moves strictly forward at every event. */
  lemma {:induction false} RankGrows(evs: seq<Event>, k: nat)
    requires ValidHistory(evs) && k < |evs|
    ensures Rank(evs[k].toStatus) >= k
  {
    if k > 0 {
      RankGrows(evs, k - 1);
      assert Follows(evs[k - 1], evs[k]);
      AllowedMovesForward(evs[k - 1].toStatus, evs[k].toStatus);
    }
  }

  /** So a booking has at most four events: creation and three transitions. */
  lemma HistoryIsShort(evs: seq<Event>)
    requires ValidHistory(evs)
    ensures |evs| <= 4
  {
    RankGrows(evs, |evs| - 1);
  }

  /**
   * The provider recorded by the first event that enters ASSIGNED, when that
   * event carries a truthy one; `null` otherwise.
   */
  function AssignedProvider(evs: seq<Event>): Option<string>
  {
    if evs == [] then None
    else if evs[0].toStatus == Assigned then
      if evs[0].metadata.TransitionMeta? && Truthy(evs[0].metadata.providerId)
      then evs[0].metadata.providerId else None
    else AssignedProvider(evs[1..])
  }

  lemma {:induction false} AssignedProviderAppend(evs: seq<Event>, e: Event)
    requires e.toStatus != Assigned
    ensures AssignedProvider(evs + [e]) == AssignedProvider(evs)
  {
    if evs != [] {
      assert (evs + [e])[1..] == evs[1..] + [e];
      AssignedProviderAppend(evs[1..], e);
    }
  }

  /**
   * A booking's `providerId` is the one given on its transition into ASSIGNED,
   * and no later event changes or clears it; a booking still PENDING has only
   * its creation event.
   */
  lemma {:induction false} ReplayProvider(evs: seq<Event>)
    requires Replay(evs).Some?
    ensures Replay(evs).value.providerId == AssignedProvider(evs)
    ensures Replay(evs).value.status == Pending ==> |evs| == 1
  {
    var n := |evs|;
    if n > 1 {
      var init := evs[..n - 1];
      var e := evs[n - 1];
      assert evs == init + [e];
      ReplayProvider(init);
      var b := Replay(init).value;
      AllowedMovesForward(b.status, e.toStatus);
      if e.toStatus == Assigned {
        assert b.status == Pending;
        assert evs == [init[0], e];
        assert evs[1..] == [e];
      } else {
        AssignedProviderAppend(init, e);
      }
    }
  }
}
