/**
 * EventServiceImpl: creating, revising, cancelling and re-statusing events,
 * and users joining and leaving them. Calls into the notification service are
 * recorded, in order, as `Notice`s.
 */
module EventServiceImpl {
  import opened Common
  import opened Entities

  /** The fields of EventCreateDTO that the service copies. */
  datatype EventForm = EventForm(
    title: string,
    description: string,
    eventDate: Instant,
    registrationDeadline: Option<Instant>,
    paid: bool,
    ticketPrice: Option<int>,
    availableTickets: Option<int>,
    locationId: nat)

  /** A call made to the notification service, with the event as saved. */
  datatype Notice =
    | EventCreated(event: Event)
    | EventCancelled(event: Event)
    | EventStatusChanged(event: Event)
    | UserJoinedEvent(username: string, event: Event)

  /** The guards of joinEvent, in the order the source checks them. */
  predicate CanJoin(e: Event, username: string, now: Instant)
  {
    && e.status == APPROVED
    && !(e.registrationDeadline.Some? && e.registrationDeadline.value < now)
    && !(e.availableTickets.Some? && e.availableTickets.value <= 0)
    && username !in e.attendees
  }

  /** The event after `username` joins: one more attendee, one ticket fewer when tickets are counted. */
  function Joined(e: Event, username: string): (r: Event)
    ensures r.attendees == e.attendees + {username}
    ensures r.availableTickets.Some? <==> e.availableTickets.Some?
    ensures r.availableTickets.Some? ==> r.availableTickets.value == e.availableTickets.value - 1
    ensures r.(attendees := e.attendees, availableTickets := e.availableTickets) == e
  {
    e.(attendees := e.attendees + {username},
       availableTickets := if e.availableTickets.Some? then Some(e.availableTickets.value - 1) else None)
  }

  /** The guards of leaveEvent: the user attends and the event has not begun. */
  predicate CanLeave(e: Event, username: string, now: Instant)
  {
    username in e.attendees && !(e.eventDate < now)
  }

  /** The event after `username` leaves: one attendee fewer, one ticket more when tickets are counted. */
  function Left(e: Event, username: string): (r: Event)
    ensures r.attendees == e.attendees - {username}
    ensures r.availableTickets.Some? <==> e.availableTickets.Some?
    ensures r.availableTickets.Some? ==> r.availableTickets.value == e.availableTickets.value + 1
    ensures r.(attendees := e.attendees, availableTickets := e.availableTickets) == e
  {
    e.(attendees := e.attendees - {username},
       availableTickets := if e.availableTickets.Some? then Some(e.availableTickets.value + 1) else None)
  }

  /** Free tickets plus attendees: the seats an event has in all. */
  function Seats(e: Event): int
    requires e.availableTickets.Some?
  {
    e.availableTickets.value + |e.attendees|
  }

  /** A successful join or leave moves exactly one seat between the counter and the attendee set. */
  lemma JoinAndLeaveKeepSeats(e: Event, username: string, now: Instant)
    requires e.availableTickets.Some?
    ensures CanJoin(e, username, now) ==> Seats(Joined(e, username)) == Seats(e)
    ensures CanLeave(e, username, now) ==> Seats(Left(e, username)) == Seats(e)
  {
    if CanJoin(e, username, now) {
      assert username !in e.attendees;
      assert |e.attendees + {username}| == |e.attendees| + 1;
    }
    if CanLeave(e, username, now) {
      assert e.attendees == (e.attendees - {username}) + {username};
      assert |e.attendees - {username}| == |e.attendees| - 1;
    }
  }

  /** Joining and then leaving restores the event, and the leave is allowed until the event starts. */
  lemma JoinThenLeaveRestores(e: Event, username: string, now: Instant, later: Instant)
    requires CanJoin(e, username, now)
    ensures CanLeave(Joined(e, username), username, later) <==> e.eventDate >= later
    ensures Left(Joined(e, username), username) == e
  {
    assert (e.attendees + {username}) - {username} == e.attendees;
  }

  /** A user who has joined cannot join again. */
  lemma NoDoubleJoin(e: Event, username: string, now: Instant, later: Instant)
    ensures !CanJoin(Joined(e, username), username, later)
  {
  }

  /** The event a creation request yields, before it is given an id. */
  function Drafted(form: EventForm, id: nat, organizer: string, now: Instant): (e: Event)
    ensures e.status == PENDING && e.organizer == organizer && e.locationId == form.locationId
    ensures e.attendees == {} && e.createdAt == Some(now) && e.id == id
    ensures e.title == form.title && e.description == form.description && e.eventDate == form.eventDate
    ensures e.registrationDeadline == form.registrationDeadline && e.paid == form.paid
    ensures e.ticketPrice == form.ticketPrice && e.availableTickets == form.availableTickets
  {
    Event(id, form.title, form.description, form.eventDate, form.registrationDeadline, form.paid,
          form.ticketPrice, form.availableTickets, PENDING, organizer, form.locationId, {}, Some(now), None)
  }

  /** The event an update request yields: the form's fields replace the old ones; status, organizer and attendees stay. */
  function Revised(e: Event, form: EventForm, now: Instant): (r: Event)
    ensures r.id == e.id && r.status == e.status && r.organizer == e.organizer
    ensures r.attendees == e.attendees && r.createdAt == e.createdAt && r.updatedAt == Some(now)
    ensures r.title == form.title && r.description == form.description && r.eventDate == form.eventDate
    ensures r.registrationDeadline == form.registrationDeadline && r.paid == form.paid
    ensures r.ticketPrice == form.ticketPrice && r.availableTickets == form.availableTickets
    ensures r.locationId == form.locationId
  {
    e.(title := form.title, description := form.description, eventDate := form.eventDate,
       registrationDeadline := form.registrationDeadline, paid := form.paid, ticketPrice := form.ticketPrice,
       availableTickets := form.availableTickets, locationId := form.locationId, updatedAt := Some(now))
  }

  /** Event ids are distinct and below the id generator. */
  ghost predicate Wellformed(events: seq<Event>, nextId: nat)
  {
    && (forall i :: 0 <= i < |events| ==> events[i].id < nextId)
    && (forall i, j :: 0 <= i < j < |events| ==> events[i].id != events[j].id)
  }

  lemma WellformedReplace(events: seq<Event>, nextId: nat, i: nat, e: Event)
    requires Wellformed(events, nextId) && i < |events| && e.id == events[i].id
    ensures Wellformed(events[i := e], nextId)
  {
  }

  lemma WellformedAppend(events: seq<Event>, nextId: nat, e: Event)
    requires Wellformed(events, nextId) && e.id == nextId
    ensures Wellformed(events + [e], nextId + 1)
  {
    var s := events + [e];
    assert forall k :: 0 <= k < |events| ==> s[k] == events[k];
  }

  class EventService {
    var events: seq<Event>
    const users: seq<User>
    const locations: seq<Location>
    var nextId: nat
    var notices: seq<Notice>

    ghost predicate Valid()
      reads this
    {
      Wellformed(events, nextId)
    }

    constructor (users: seq<User>, locations: seq<Location>)
      ensures Valid() && events == [] && notices == []
      ensures this.users == users && this.locations == locations
    {
      events := [];
      this.users := users;
      this.locations := locations;
      nextId := 1;
      notices := [];
    }

    /**
     * Creates a PENDING event organised by `organizerUsername` at the form's
     * location, with no attendees, and notifies the organizer. A missing
     * organizer is reported before a missing location.
     */
    method CreateEvent(form: EventForm, organizerUsername: string, now: Instant) returns (r: Result<nat>)
      requires Valid()
      modifies this
      ensures Valid()
      ensures UserByUsername(users, organizerUsername).None? ==> r == Err(NotFound("User not found"))
      ensures UserByUsername(users, organizerUsername).Some? && LocationById(locations, form.locationId).None? ==>
                r == Err(ResourceNotFound("Location", "id"))
      ensures r.Ok? <==> UserByUsername(users, organizerUsername).Some? && LocationById(locations, form.locationId).Some?
      ensures r.Err? ==> events == old(events) && nextId == old(nextId) && notices == old(notices)
      ensures r.Ok? ==>
                && r.value == old(nextId)
                && events == old(events) + [Drafted(form, r.value, organizerUsername, now)]
                && notices == old(notices) + [EventCreated(Drafted(form, r.value, organizerUsername, now))]
    {
      if UserByUsername(users, organizerUsername).None? {
        return Err(NotFound("User not found"));
      }
      if LocationById(locations, form.locationId).None? {
        return Err(ResourceNotFound("Location", "id"));
      }
      var event := Drafted(form, nextId, organizerUsername, now);
      WellformedAppend(events, nextId, event);
      events := events + [event];
      nextId := nextId + 1;
      notices := notices + [EventCreated(event)];
      r := Ok(event.id);
    }

    /** Overwrites the event's editable fields; a missing event is reported before a missing location. */
    method UpdateEvent(id: nat, form: EventForm, now: Instant) returns (r: Result<()>)
      requires Valid()
      modifies this
      ensures Valid()
      ensures nextId == old(nextId) && notices == old(notices)
      ensures EventIndex(old(events), id).None? ==> r == Err(ResourceNotFound("Event", "id"))
      ensures EventIndex(old(events), id).Some? && LocationById(locations, form.locationId).None? ==>
                r == Err(ResourceNotFound("Location", "id"))
      ensures r.Err? ==> events == old(events)
      ensures r.Ok? <==> EventIndex(old(events), id).Some? && LocationById(locations, form.locationId).Some?
      ensures r.Ok? ==>
                var i := EventIndex(old(events), id).value;
                events == old(events)[i := Revised(old(events)[i], form, now)]
    {
      var index := EventIndex(events, id);
      if index.None? {
        return Err(ResourceNotFound("Event", "id"));
      }
      if LocationById(locations, form.locationId).None? {
        return Err(ResourceNotFound("Location", "id"));
      }
      var i := index.value;
      var updated := Revised(events[i], form, now);
      WellformedReplace(events, nextId, i, updated);
      events := events[i := updated];
      r := Ok(());
    }

    /** "Deleting" cancels: the event stays, with status CANCELED, and its attendees are notified. */
    method DeleteEvent(id: nat, now: Instant) returns (r: Result<()>)
      requires Valid()
      modifies this
      ensures Valid()
      ensures nextId == old(nextId)
      ensures r.Err? <==> EventIndex(old(events), id).None?
      ensures r.Err? ==> r.error == ResourceNotFound("Event", "id") && events == old(events) && notices == old(notices)
      ensures |events| == |old(events)|
      ensures r.Ok? ==>
                var i := EventIndex(old(events), id).value;
                var cancelled := old(events)[i].(status := CANCELED, updatedAt := Some(now));
                events == old(events)[i := cancelled] && notices == old(notices) + [EventCancelled(cancelled)]
    {
      var index := EventIndex(events, id);
      if index.None? {
        return Err(ResourceNotFound("Event", "id"));
      }
      var i := index.value;
      var cancelled := events[i].(status := CANCELED, updatedAt := Some(now));
      WellformedReplace(events, nextId, i, cancelled);
      events := events[i := cancelled];
      notices := notices + [EventCancelled(cancelled)];
      r := Ok(());
    }

    /** Sets exactly the requested status and notifies about the change. */
    method ChangeEventStatus(id: nat, status: EventStatus, now: Instant) returns (r: Result<()>)
      requires Valid()
      modifies this
      ensures Valid()
      ensures nextId == old(nextId)
      ensures r.Err? <==> EventIndex(old(events), id).None?
      ensures r.Err? ==> r.error == ResourceNotFound("Event", "id") && events == old(events) && notices == old(notices)
      ensures r.Ok? ==>
                var i := EventIndex(old(events), id).value;
                var changed := old(events)[i].(status := status, updatedAt := Some(now));
                events == old(events)[i := changed] && notices == old(notices) + [EventStatusChanged(changed)]
    {
      var index := EventIndex(events, id);
      if index.None? {
        return Err(ResourceNotFound("Event", "id"));
      }
      var i := index.value;
      var changed := events[i].(status := status, updatedAt := Some(now));
      WellformedReplace(events, nextId, i, changed);
      events := events[i := changed];
      notices := notices + [EventStatusChanged(changed)];
      r := Ok(());
    }

    /**
     * `username` joins the event when every guard of CanJoin holds; otherwise
     * the answer is false and nothing changes. A missing event is reported
     * before a missing user.
     */
    method JoinEvent(eventId: nat, username: string, now: Instant) returns (r: Result<bool>)
      requires Valid()
      modifies this
      ensures Valid()
      ensures nextId == old(nextId)
      ensures EventIndex(old(events), eventId).None? ==> r == Err(ResourceNotFound("Event", "id"))
      ensures EventIndex(old(events), eventId).Some? && UserByUsername(users, username).None? ==>
                r == Err(NotFound("User not found"))
      ensures r != Ok(true) ==> events == old(events) && notices == old(notices)
      ensures EventIndex(old(events), eventId).Some? && UserByUsername(users, username).Some? ==>
                var i := EventIndex(old(events), eventId).value;
                && r == Ok(CanJoin(old(events)[i], username, now))
                && (r == Ok(true) ==>
                      events == old(events)[i := Joined(old(events)[i], username)] &&
                      notices == old(notices) + [UserJoinedEvent(username, Joined(old(events)[i], username))])
    {
      var index := EventIndex(events, eventId);
      if index.None? {
        return Err(ResourceNotFound("Event", "id"));
      }
      if UserByUsername(users, username).None? {
        return Err(NotFound("User not found"));
      }
      var i := index.value;
      var event := events[i];
      if event.status != APPROVED {
        return Ok(false);
      }
      if event.registrationDeadline.Some? && event.registrationDeadline.value < now {
        return Ok(false);
      }
      if event.availableTickets.Some? && event.availableTickets.value <= 0 {
        return Ok(false);
      }
      if username in event.attendees {
        return Ok(false);
      }
      var joined := Joined(event, username);
      WellformedReplace(events, nextId, i, joined);
      events := events[i := joined];
      notices := notices + [UserJoinedEvent(username, joined)];
      r := Ok(true);
    }

    /**
     * `username` leaves the event when they attend and it has not begun;
     * otherwise the answer is false and nothing changes. Leaving notifies nobody.
     */
    method LeaveEvent(eventId: nat, username: string, now: Instant) returns (r: Result<bool>)
      requires Valid()
      modifies this
      ensures Valid()
      ensures nextId == old(nextId) && notices == old(notices)
      ensures EventIndex(old(events), eventId).None? ==> r == Err(ResourceNotFound("Event", "id"))
      ensures EventIndex(old(events), eventId).Some? && UserByUsername(users, username).None? ==>
                r == Err(NotFound("User not found"))
      ensures r != Ok(true) ==> events == old(events)
      ensures EventIndex(old(events), eventId).Some? && UserByUsername(users, username).Some? ==>
                var i := EventIndex(old(events), eventId).value;
                && r == Ok(CanLeave(old(events)[i], username, now))
                && (r == Ok(true) ==> events == old(events)[i := Left(old(events)[i], username)])
    {
      var index := EventIndex(events, eventId);
      if index.None? {
        return Err(ResourceNotFound("Event", "id"));
      }
      if UserByUsername(users, username).None? {
        return Err(NotFound("User not found"));
      }
      var i := index.value;
      var event := events[i];
      if username !in event.attendees {
        return Ok(false);
      }
      if event.eventDate < now {
        return Ok(false);
      }
      var left := Left(event, username);
      WellformedReplace(events, nextId, i, left);
      events := events[i := left];
      r := Ok(true);
    }
  }
}
