/** The derived and JPQL queries of TicketRepository over the ticket table. */
module TicketRepository {
  import opened Common
  import opened Entities

  function FindByEventId(tickets: seq<Ticket>, eventId: nat): (r: seq<Ticket>)
    ensures forall t :: t in r <==> t in tickets && t.eventId == eventId
    ensures |r| <= |tickets|
    ensures forall t :: multiset(r)[t] == if t.eventId == eventId then multiset(tickets)[t] else 0
    ensures IsSubsequence(r, tickets)
  {
    Filter(tickets, (t: Ticket) => t.eventId == eventId)
  }

  function FindByUserId(tickets: seq<Ticket>, userId: nat): (r: seq<Ticket>)
    ensures forall t :: t in r <==> t in tickets && t.userId == userId
    ensures |r| <= |tickets|
    ensures forall t :: multiset(r)[t] == if t.userId == userId then multiset(tickets)[t] else 0
    ensures IsSubsequence(r, tickets)
  {
    Filter(tickets, (t: Ticket) => t.userId == userId)
  }

  /** The ticket_number column is unique. */
  predicate UniqueNumbers(tickets: seq<Ticket>)
  {
    forall i, j :: 0 <= i < j < |tickets| ==> tickets[i].ticketNumber != tickets[j].ticketNumber
  }

  function IndexOfNumber(tickets: seq<Ticket>, number: string): (r: Option<nat>)
    ensures r.None? <==> forall i :: 0 <= i < |tickets| ==> tickets[i].ticketNumber != number
    ensures r.Some? ==> r.value < |tickets| && tickets[r.value].ticketNumber == number
  {
    FirstIndex(tickets, (x: Ticket) => x.ticketNumber == number)
  }

  /** The position of the ticket with this id (`findById`). */
  function IndexOfId(tickets: seq<Ticket>, id: nat): (r: Option<nat>)
    ensures r.None? <==> forall i :: 0 <= i < |tickets| ==> tickets[i].id != id
    ensures r.Some? ==> r.value < |tickets| && tickets[r.value].id == id
  {
    FirstIndex(tickets, (x: Ticket) => x.id == id)
  }

  /** `Optional<TicketEntity> findByTicketNumber`. */
  function FindByTicketNumber(tickets: seq<Ticket>, number: string): (r: Option<Ticket>)
    ensures r.None? <==> forall t :: t in tickets ==> t.ticketNumber != number
    ensures r.Some? ==> r.value in tickets && r.value.ticketNumber == number
  {
    match IndexOfNumber(tickets, number)
      case None => None
      case Some(i) => Some(tickets[i])
  }

  /** With unique numbers the query returns the one ticket carrying the number. */
  lemma FindByTicketNumberIsUnique(tickets: seq<Ticket>, t: Ticket)
    requires UniqueNumbers(tickets) && t in tickets
    ensures FindByTicketNumber(tickets, t.ticketNumber) == Some(t)
  {
    var k :| 0 <= k < |tickets| && tickets[k] == t;
    var i := IndexOfNumber(tickets, t.ticketNumber).value;
    assert !(i < k) && !(k < i);
  }

  /** `SELECT COUNT(t) FROM TicketEntity t WHERE t.event.id = ?1`. */
  function CountTicketsByEventId(tickets: seq<Ticket>, eventId: nat): (n: nat)
    ensures n == |FindByEventId(tickets, eventId)|
    ensures n == 0 <==> forall t :: t in tickets ==> t.eventId != eventId
  {
    CountIsFilterLength(tickets, (t: Ticket) => t.eventId == eventId);
    Count(tickets, (t: Ticket) => t.eventId == eventId)
  }

  /** `... WHERE t.event.id = ?1 AND t.used = ?2`. */
  function FindByEventIdAndUsed(tickets: seq<Ticket>, eventId: nat, used: bool): (r: seq<Ticket>)
    ensures forall t :: t in r <==> t in tickets && t.eventId == eventId && t.used == used
    ensures |r| <= |tickets|
    ensures forall t :: multiset(r)[t] == if t.eventId == eventId && t.used == used then multiset(tickets)[t] else 0
    ensures IsSubsequence(r, tickets)
  {
    Filter(tickets, (t: Ticket) => t.eventId == eventId && t.used == used)
  }

  /** An event's tickets split exactly into its used and its unused ones. */
  lemma {:induction false} UsedAndUnusedPartitionEventTickets(tickets: seq<Ticket>, eventId: nat)
    ensures |FindByEventIdAndUsed(tickets, eventId, true)| + |FindByEventIdAndUsed(tickets, eventId, false)|
            == CountTicketsByEventId(tickets, eventId)
  {
    if tickets != [] {
      UsedAndUnusedPartitionEventTickets(tickets[1..], eventId);
    }
  }

  /** Appending a ticket raises its event's count by one and leaves the others. */
  lemma CountAfterAppend(tickets: seq<Ticket>, t: Ticket, eventId: nat)
    ensures CountTicketsByEventId(tickets + [t], eventId)
            == CountTicketsByEventId(tickets, eventId) + (if t.eventId == eventId then 1 else 0)
  {
    CountAppend(tickets, t, (x: Ticket) => x.eventId == eventId);
  }
}
