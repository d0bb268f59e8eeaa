/** Reading the event log: `getBookingEvents` filters it by booking id. */
module EventLog {
  import opened Records

  /** `events.filter(e => e.bookingId === bookingId)`. */
  function EventsFor(es: seq<Event>, bookingId: int): (r: seq<Event>)
    ensures |r| <= |es|
  {
    if es == [] then []
    else (if es[0].bookingId == bookingId then [es[0]] else []) + EventsFor(es[1..], bookingId)
  }

  /** The filtered log holds exactly the events of the log that carry the booking id. */
  lemma {:induction false} EventsForMembers(es: seq<Event>, bookingId: int)
    ensures forall e :: e in EventsFor(es, bookingId) <==> e in es && e.bookingId == bookingId
  {
    if es != [] {
      EventsForMembers(es[1..], bookingId);
      assert es == [es[0]] + es[1..];
    }
  }

  /** Appending an event extends the filtered log of its own booking only. */
  lemma {:induction false} EventsForAppend(es: seq<Event>, e: Event, bookingId: int)
    ensures EventsFor(es + [e], bookingId)
         == EventsFor(es, bookingId) + (if e.bookingId == bookingId then [e] else [])
  {
    if es == [] {
      assert es + [e] == [e];
    } else {
      assert (es + [e])[1..] == es[1..] + [e];
      EventsForAppend(es[1..], e, bookingId);
    }
  }

  /** Event ids strictly increase along the log. */
  ghost predicate IdsIncreasing(es: seq<Event>)
  {
    forall i, j :: 0 <= i < j < |es| ==> es[i].id < es[j].id
  }

  /** The filtered log keeps the log's order, so its ids increase too. */
  lemma {:induction false} EventsForKeepsOrder(es: seq<Event>, bookingId: int)
    requires IdsIncreasing(es)
    ensures IdsIncreasing(EventsFor(es, bookingId))
  {
    if es != [] {
      EventsForKeepsOrder(es[1..], bookingId);
      EventsForMembers(es[1..], bookingId);
      var rest := EventsFor(es[1..], bookingId);
      forall e | e in rest ensures es[0].id < e.id {
        var j :| 0 <= j < |es[1..]| && es[1..][j] == e;
        assert es[j + 1] == e;
      }
    }
  }
}
