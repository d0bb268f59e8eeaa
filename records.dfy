/** The two records the store keeps: bookings and the events that log their changes. */
module Records {
  import opened Wrappers
  import opened Lifecycle

  /** A wall-clock reading (`new Date().toISOString()`), supplied by the caller. */
  type Timestamp = string

  /** One booking; `providerId` is `null` until an ASSIGNED transition names a provider. */
  datatype Booking = Booking(
    id: int,
    customerName: string,
    serviceType: string,
    scheduledTime: string,
    status: Status,
    providerId: Option<string>,
    createdAt: Timestamp,
    updatedAt: Timestamp)

  /**
   * The metadata object of an event: the creation fields for the creation event,
   * the caller's `providerId` and `reason` (both kept, even when `null`) for a transition.
   */
  datatype Metadata =
    | CreationMeta(customerName: string, serviceType: string, scheduledTime: string)
    | TransitionMeta(providerId: Option<string>, reason: Option<string>)

  /** One log entry; `fromStatus` is `null` only for the creation event. */
  datatype Event = Event(
    id: int,
    bookingId: int,
    fromStatus: Option<Status>,
    toStatus: Status,
    timestamp: Timestamp,
    metadata: Metadata)

  /** JavaScript truthiness of an optional string: present and not empty. */
  predicate Truthy(p: Option<string>)
  {
    p.Some? && p.value != ""
  }
}
