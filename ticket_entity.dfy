/** TicketEntity before it is persisted, with its @PrePersist defaulting. */
module TicketPersistence {
  import opened Common

  /** Keeps a value that is set; otherwise takes the default. */
  function OrDefault<T>(v: Option<T>, default: T): (r: Option<T>)
    ensures r.Some?
    ensures v.Some? ==> r == v
    ensures v.None? ==> r == Some(default)
  {
    if v.Some? then v else Some(default)
  }

  /** A value once set is never replaced, so defaulting twice equals defaulting once. */
  lemma OrDefaultIdempotent<T>(v: Option<T>, first: T, second: T)
    ensures OrDefault(OrDefault(v, first), second) == OrDefault(v, first)
  {
  }

  class TicketEntity {
    var ticketNumber: Option<string>
    var issueDate: Option<Instant>
    var used: bool
    var eventId: Option<nat>
    var userId: Option<nat>

    /** The no-argument constructor: nothing set, not used. */
    constructor ()
      ensures ticketNumber.None? && issueDate.None? && !used
      ensures eventId.None? && userId.None?
    {
      ticketNumber := None;
      issueDate := None;
      used := false;
      eventId := None;
      userId := None;
    }

    /**
     * Fills a missing ticket number with `freshNumber` (a random UUID) and a
     * missing issue date with `now`; every other field is left as it was.
     */
    method PrePersist(freshNumber: string, now: Instant)
      modifies this
      ensures ticketNumber == OrDefault(old(ticketNumber), freshNumber)
      ensures issueDate == OrDefault(old(issueDate), now)
      ensures used == old(used) && eventId == old(eventId) && userId == old(userId)
    {
      if ticketNumber.None? {
        ticketNumber := Some(freshNumber);
      }
      if issueDate.None? {
        issueDate := Some(now);
      }
    }
  }
}
