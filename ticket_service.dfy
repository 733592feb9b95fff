/**
 * TicketServiceImpl: issuing tickets against location capacity, validating a
 * ticket once, deleting and looking tickets up. The event, location and user
 * tables are read here and never written.
 */
module TicketServiceImpl {
  import opened Common
  import opened Entities
  import TR = TicketRepository

  /** Ids are below the id generator and distinct, numbers are unique, and foreign keys resolve. */
  ghost predicate Wellformed(tickets: seq<Ticket>, events: seq<Event>, locations: seq<Location>, nextId: nat)
  {
    && (forall i :: 0 <= i < |tickets| ==> tickets[i].id < nextId)
    && (forall i, j :: 0 <= i < j < |tickets| ==> tickets[i].id != tickets[j].id)
    && TR.UniqueNumbers(tickets)
    && (forall i :: 0 <= i < |tickets| ==> EventById(events, tickets[i].eventId).Some?)
    && (forall i :: 0 <= i < |events| ==> LocationById(locations, events[i].locationId).Some?)
  }

  lemma WellformedAppend(tickets: seq<Ticket>, t: Ticket, events: seq<Event>, locations: seq<Location>, nextId: nat)
    requires Wellformed(tickets, events, locations, nextId)
    requires t.id == nextId && TR.FindByTicketNumber(tickets, t.ticketNumber).None?
    requires EventById(events, t.eventId).Some?
    ensures Wellformed(tickets + [t], events, locations, nextId + 1)
  {
    var s := tickets + [t];
    forall k | 0 <= k < |s|
      ensures s[k].id < nextId + 1 && EventById(events, s[k].eventId).Some?
    {
      if k < |tickets| {
        assert s[k] == tickets[k];
      } else {
        assert s[k] == t;
      }
    }
    forall k | 0 <= k < |tickets|
      ensures tickets[k].id != t.id && tickets[k].ticketNumber != t.ticketNumber
    {
      assert tickets[k] in tickets;
    }
    AppendKeepsDistinct(tickets, t);
  }

  /** Appending a ticket whose id and number are new keeps ids and numbers distinct. */
  lemma AppendKeepsDistinct(tickets: seq<Ticket>, t: Ticket)
    requires forall i, j :: 0 <= i < j < |tickets| ==> tickets[i].id != tickets[j].id
    requires TR.UniqueNumbers(tickets)
    requires forall k :: 0 <= k < |tickets| ==> tickets[k].id != t.id && tickets[k].ticketNumber != t.ticketNumber
    ensures forall i, j :: 0 <= i < j < |tickets + [t]| ==> (tickets + [t])[i].id != (tickets + [t])[j].id
    ensures TR.UniqueNumbers(tickets + [t])
  {
    var s := tickets + [t];
    forall a, b | 0 <= a < b < |s|
      ensures s[a].id != s[b].id && s[a].ticketNumber != s[b].ticketNumber
    {
      assert s[a] == tickets[a];
      if b < |tickets| {
        assert s[b] == tickets[b];
      }
    }
  }

  lemma WellformedUpdate(tickets: seq<Ticket>, i: nat, t: Ticket, events: seq<Event>, locations: seq<Location>, nextId: nat)
    requires Wellformed(tickets, events, locations, nextId) && i < |tickets|
    requires t.id == tickets[i].id && t.ticketNumber == tickets[i].ticketNumber && t.eventId == tickets[i].eventId
    ensures Wellformed(tickets[i := t], events, locations, nextId)
  {
    var s := tickets[i := t];
    forall k | 0 <= k < |s|
      ensures s[k].id == tickets[k].id && s[k].ticketNumber == tickets[k].ticketNumber && s[k].eventId == tickets[k].eventId
    {
    }
    SameKeysWellformed(tickets, s, events, locations, nextId);
  }

  /** The invariant depends only on each ticket's id, number and event. */
  lemma SameKeysWellformed(tickets: seq<Ticket>, s: seq<Ticket>, events: seq<Event>, locations: seq<Location>, nextId: nat)
    requires Wellformed(tickets, events, locations, nextId) && |s| == |tickets|
    requires forall k :: 0 <= k < |s| ==>
               s[k].id == tickets[k].id && s[k].ticketNumber == tickets[k].ticketNumber && s[k].eventId == tickets[k].eventId
    ensures Wellformed(s, events, locations, nextId)
  {
    assert TR.UniqueNumbers(s) by {
      forall a, b | 0 <= a < b < |s|
        ensures s[a].ticketNumber != s[b].ticketNumber
      {
        assert tickets[a].ticketNumber != tickets[b].ticketNumber;
      }
    }
  }

  /** Removing position `i` keeps the invariant. */
  lemma WellformedRemove(tickets: seq<Ticket>, i: nat, events: seq<Event>, locations: seq<Location>, nextId: nat)
    requires Wellformed(tickets, events, locations, nextId) && i < |tickets|
    ensures Wellformed(tickets[..i] + tickets[i + 1..], events, locations, nextId)
  {
    var s := tickets[..i] + tickets[i + 1..];
    RemoveAtPositions(tickets, i);
    forall k | 0 <= k < |s|
      ensures s[k] == tickets[if k < i then k else k + 1]
    {
      if k >= i {
        assert s[(k + 1) - 1] == tickets[k + 1];
      }
    }
    forall a, b | 0 <= a < b < |s|
      ensures s[a].id != s[b].id && s[a].ticketNumber != s[b].ticketNumber
    {
      var a', b' := if a < i then a else a + 1, if b < i then b else b + 1;
      assert s[a] == tickets[a'] && s[b] == tickets[b'];
    }
    assert TR.UniqueNumbers(s);
  }

  /** The ticket table after deleteTicket: the ticket with this id removed, or not found. */
  function DeleteOutcome(tickets: seq<Ticket>, id: nat): (r: Result<seq<Ticket>>)
    ensures r.Err? <==> TR.IndexOfId(tickets, id).None?
    ensures r.Err? ==> r.error == ResourceNotFound("Ticket", "id")
    ensures r.Ok? ==> |r.value| == |tickets| - 1
  {
    match TR.IndexOfId(tickets, id)
      case None => Err(ResourceNotFound("Ticket", "id"))
      case Some(i) => Ok(tickets[..i] + tickets[i + 1..])
  }

  /** Deleting removes exactly the ticket with that id, and the table stays well formed. */
  lemma DeleteRemovesExactlyThatTicket(tickets: seq<Ticket>, id: nat, events: seq<Event>, locations: seq<Location>, nextId: nat)
    requires Wellformed(tickets, events, locations, nextId)
    requires DeleteOutcome(tickets, id).Ok?
    ensures forall t :: t in DeleteOutcome(tickets, id).value <==> t in tickets && t.id != id
    ensures Wellformed(DeleteOutcome(tickets, id).value, events, locations, nextId)
  {
    var i := TR.IndexOfId(tickets, id).value;
    WellformedRemove(tickets, i, events, locations, nextId);
    RemoveUniqueKey(tickets, i, (t: Ticket) => t.id);
  }

  /** The capacity of the event's location; null means unlimited. */
  function Capacity(e: Event, locations: seq<Location>): Option<int>
    requires LocationById(locations, e.locationId).Some?
  {
    LocationById(locations, e.locationId).value.capacity
  }

  /**
   * What createTicket yields on the given tables: the missing event is reported
   * before the missing user, then a full location refuses, then a clashing
   * ticket number violates the unique column; otherwise the new ticket.
   */
  function CreateTicketOutcome(tickets: seq<Ticket>, events: seq<Event>, locations: seq<Location>, users: seq<User>,
                               nextId: nat, eventId: nat, username: string, freshNumber: string, now: Instant): Result<Ticket>
    requires forall i :: 0 <= i < |events| ==> LocationById(locations, events[i].locationId).Some?
  {
    match EventById(events, eventId)
      case None => Err(ResourceNotFound("Event", "id"))
      case Some(event) =>
        match UserByUsername(users, username)
          case None => Err(ResourceNotFound("User", "username"))
          case Some(user) =>
            var capacity := Capacity(event, locations);
            if capacity.Some? && TR.CountTicketsByEventId(tickets, eventId) >= capacity.value then
              Err(IllegalState("Cannot create ticket: Event has reached location capacity of " + IntToString(capacity.value)))
            else if TR.FindByTicketNumber(tickets, freshNumber).Some? then
              Err(ConstraintViolation("ticket_number"))
            else
              Ok(Ticket(nextId, freshNumber, now, false, eventId, user.id, Some(now), None))
  }

  /** The event is looked up before the user, and a missing one of either saves nothing. */
  lemma CreateTicketChecksEventFirst(tickets: seq<Ticket>, events: seq<Event>, locations: seq<Location>, users: seq<User>,
                                     nextId: nat, eventId: nat, username: string, freshNumber: string, now: Instant)
    requires forall i :: 0 <= i < |events| ==> LocationById(locations, events[i].locationId).Some?
    ensures (forall e :: e in events ==> e.id != eventId) ==>
              CreateTicketOutcome(tickets, events, locations, users, nextId, eventId, username, freshNumber, now)
                == Err(ResourceNotFound("Event", "id"))
    ensures (exists e :: e in events && e.id == eventId) && (forall u :: u in users ==> u.username != username) ==>
              CreateTicketOutcome(tickets, events, locations, users, nextId, eventId, username, freshNumber, now)
                == Err(ResourceNotFound("User", "username"))
  {
  }

  /**
   * A ticket is issued only while the location has room: with a capacity set,
   * the event's ticket count after issuing is at most the capacity, and a full
   * location is refused with IllegalStateException.
   */
  lemma {:induction false} CreateTicketRespectsCapacity(tickets: seq<Ticket>, events: seq<Event>, locations: seq<Location>, users: seq<User>,
                                     nextId: nat, eventId: nat, username: string, freshNumber: string, now: Instant)
    requires forall i :: 0 <= i < |events| ==> LocationById(locations, events[i].locationId).Some?
    requires EventById(events, eventId).Some? && UserByUsername(users, username).Some?
    requires Capacity(EventById(events, eventId).value, locations).Some?
    ensures var outcome := CreateTicketOutcome(tickets, events, locations, users, nextId, eventId, username, freshNumber, now);
            var capacity := Capacity(EventById(events, eventId).value, locations).value;
            && (TR.CountTicketsByEventId(tickets, eventId) >= capacity ==> outcome.Err? && outcome.error.IllegalState?)
            && (outcome.Ok? ==> TR.CountTicketsByEventId(tickets + [outcome.value], eventId) <= capacity)
  {
    var outcome := CreateTicketOutcome(tickets, events, locations, users, nextId, eventId, username, freshNumber, now);
    if outcome.Ok? {
      TR.CountAfterAppend(tickets, outcome.value, eventId);
    }
  }

  /** An issued ticket is unused, carries the fresh number and is linked to the requested event and user. */
  lemma CreatedTicketIsUnused(tickets: seq<Ticket>, events: seq<Event>, locations: seq<Location>, users: seq<User>,
                              nextId: nat, eventId: nat, username: string, freshNumber: string, now: Instant)
    requires forall i :: 0 <= i < |events| ==> LocationById(locations, events[i].locationId).Some?
    ensures var outcome := CreateTicketOutcome(tickets, events, locations, users, nextId, eventId, username, freshNumber, now);
            outcome.Ok? ==>
              && !outcome.value.used && outcome.value.eventId == eventId
              && UserByUsername(users, username).Some?
              && outcome.value.userId == UserByUsername(users, username).value.id
              && outcome.value.ticketNumber == freshNumber && outcome.value.issueDate == now
              && TR.FindByTicketNumber(tickets, freshNumber).None?
  {
  }

  class TicketService {
    var tickets: seq<Ticket>
    const events: seq<Event>
    const locations: seq<Location>
    const users: seq<User>
    var nextId: nat

    ghost predicate Valid()
      reads this
    {
      Wellformed(tickets, events, locations, nextId)
    }

    constructor (events: seq<Event>, locations: seq<Location>, users: seq<User>)
      requires forall i :: 0 <= i < |events| ==> LocationById(locations, events[i].locationId).Some?
      ensures Valid() && tickets == []
      ensures this.events == events && this.locations == locations && this.users == users
    {
      tickets := [];
      this.events := events;
      this.locations := locations;
      this.users := users;
      nextId := 1;
    }

    /**
     * Issues a ticket for `eventId` to `username`; `freshNumber` stands for the
     * random UUID and `now` for the clock. The table grows by the issued ticket
     * and by nothing on error.
     */
    method CreateTicket(eventId: nat, username: string, freshNumber: string, now: Instant) returns (r: Result<Ticket>)
      requires Valid()
      modifies this
      ensures Valid()
      ensures r == CreateTicketOutcome(old(tickets), events, locations, users, old(nextId), eventId, username, freshNumber, now)
      ensures r.Err? ==> tickets == old(tickets) && nextId == old(nextId)
      ensures r.Ok? ==> tickets == old(tickets) + [r.value] && nextId == old(nextId) + 1
    {
      var event := EventById(events, eventId);
      if event.None? {
        return Err(ResourceNotFound("Event", "id"));
      }
      var user := UserByUsername(users, username);
      if user.None? {
        return Err(ResourceNotFound("User", "username"));
      }
      var capacity := Capacity(event.value, locations);
      if capacity.Some? {
        var current := TR.CountTicketsByEventId(tickets, eventId);
        if current >= capacity.value {
          return Err(IllegalState("Cannot create ticket: Event has reached location capacity of " + IntToString(capacity.value)));
        }
      }
      if TR.FindByTicketNumber(tickets, freshNumber).Some? {
        return Err(ConstraintViolation("ticket_number"));
      }
      var ticket := Ticket(nextId, freshNumber, now, false, eventId, user.value.id, Some(now), None);
      Save(ticket);
      r := Ok(ticket);
    }

    /** `ticketRepository.save` of a new ticket: it takes the next id. */
    method Save(t: Ticket)
      requires Valid()
      requires t.id == nextId && TR.FindByTicketNumber(tickets, t.ticketNumber).None?
      requires EventById(events, t.eventId).Some?
      modifies this
      ensures Valid()
      ensures tickets == old(tickets) + [t] && nextId == old(nextId) + 1
    {
      WellformedAppend(tickets, t, events, locations, nextId);
      tickets := tickets + [t];
      nextId := nextId + 1;
    }

    function GetTicketById(id: nat): (r: Result<Ticket>)
      reads this
      ensures r.Err? <==> forall t :: t in tickets ==> t.id != id
      ensures r.Err? ==> r.error == ResourceNotFound("Ticket", "id")
      ensures r.Ok? ==> r.value in tickets && r.value.id == id
    {
      match Find(tickets, (t: Ticket) => t.id == id)
        case None => Err(ResourceNotFound("Ticket", "id"))
        case Some(t) => Ok(t)
    }

    function GetTicketByNumber(number: string): (r: Result<Ticket>)
      reads this
      ensures r.Err? <==> forall t :: t in tickets ==> t.ticketNumber != number
      ensures r.Err? ==> r.error == ResourceNotFound("Ticket", "number")
      ensures r.Ok? ==> r.value in tickets && r.value.ticketNumber == number
    {
      match TR.FindByTicketNumber(tickets, number)
        case None => Err(ResourceNotFound("Ticket", "number"))
        case Some(t) => Ok(t)
    }

    function GetTicketsByEvent(eventId: nat): (r: seq<Ticket>)
      reads this
      ensures forall t :: t in r <==> t in tickets && t.eventId == eventId
      ensures forall t :: multiset(r)[t] == if t.eventId == eventId then multiset(tickets)[t] else 0
      ensures IsSubsequence(r, tickets)
    {
      TR.FindByEventId(tickets, eventId)
    }

    /** The user is looked up first; an unknown username is an error, not an empty list. */
    function GetTicketsByUser(username: string): (r: Result<seq<Ticket>>)
      reads this
      ensures r.Err? <==> UserByUsername(users, username).None?
      ensures r.Err? ==> r.error == ResourceNotFound("User", "username")
      ensures r.Ok? ==> forall t :: t in r.value <==>
                          t in tickets && t.userId == UserByUsername(users, username).value.id
      ensures r.Ok? ==> forall t :: multiset(r.value)[t] ==
                          if t.userId == UserByUsername(users, username).value.id then multiset(tickets)[t] else 0
      ensures r.Ok? ==> IsSubsequence(r.value, tickets)
    {
      match UserByUsername(users, username)
        case None => Err(ResourceNotFound("User", "username"))
        case Some(u) => Ok(TR.FindByUserId(tickets, u.id))
    }

    /** Whether validating the ticket with this number would succeed now. */
    predicate Usable(number: string, now: Instant)
      reads this
      requires Valid()
    {
      match TR.FindByTicketNumber(tickets, number)
        case None => false
        case Some(t) => !t.used && EventById(events, t.eventId).value.eventDate <= now
    }

    /**
     * Validates a ticket at the door: unknown numbers are an error; a used
     * ticket, or one whose event has not started, is refused; otherwise the
     * ticket becomes used. A ticket validated once is never usable again.
     */
    method UseTicket(number: string, now: Instant) returns (r: Result<bool>)
      requires Valid()
      modifies this
      ensures Valid()
      ensures nextId == old(nextId)
      ensures r.Err? <==> TR.FindByTicketNumber(old(tickets), number).None?
      ensures r.Err? ==> r.error == ResourceNotFound("Ticket", "number")
      ensures r == Ok(true) <==> old(Usable(number, now))
      ensures r != Ok(true) ==> tickets == old(tickets)
      ensures r == Ok(true) ==>
                var i := TR.IndexOfNumber(old(tickets), number).value;
                tickets == old(tickets)[i := old(tickets)[i].(used := true, updatedAt := Some(now))]
      ensures r == Ok(true) ==> !Usable(number, now) && TR.FindByTicketNumber(tickets, number).Some?
    {
      var index := TR.IndexOfNumber(tickets, number);
      if index.None? {
        return Err(ResourceNotFound("Ticket", "number"));
      }
      var i := index.value;
      var ticket := tickets[i];
      if ticket.used {
        return Ok(false);
      }
      if EventById(events, ticket.eventId).value.eventDate > now {
        return Ok(false);
      }
      var updated := ticket.(used := true, updatedAt := Some(now));
      WellformedUpdate(tickets, i, updated, events, locations, nextId);
      tickets := tickets[i := updated];
      assert tickets[i] == updated;
      TR.FindByTicketNumberIsUnique(tickets, updated);
      r := Ok(true);
    }

    /** Deletes the ticket with this id; an unknown id is an error and deletes nothing. */
    method DeleteTicket(id: nat) returns (r: Result<()>)
      requires Valid()
      modifies this
      ensures Valid()
      ensures nextId == old(nextId)
      ensures DeleteOutcome(old(tickets), id).Err? ==>
                r == Err(ResourceNotFound("Ticket", "id")) && tickets == old(tickets)
      ensures DeleteOutcome(old(tickets), id).Ok? ==>
                r == Ok(()) && tickets == DeleteOutcome(old(tickets), id).value
    {
      var index := TR.IndexOfId(tickets, id);
      if index.None? {
        return Err(ResourceNotFound("Ticket", "id"));
      }
      var i := index.value;
      assert DeleteOutcome(tickets, id) == Ok(tickets[..i] + tickets[i + 1..]);
      DeleteRemovesExactlyThatTicket(tickets, id, events, locations, nextId);
      tickets := tickets[..i] + tickets[i + 1..];
      r := Ok(());
    }
  }
}
