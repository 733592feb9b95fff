/**
 * EventReminderServiceImpl: the hourly job that reminds the organizer and
 * the attendees of each APPROVED event starting 24 hours from now (give or
 * take 30 minutes), and the manual trigger for one event.
 *
 * The in-app notifications and e-mails it asks for are returned as a list
 * of calls. Every call is wrapped in its own try/catch in the service, so a
 * call that throws (decided here by the oracle `fails`) is simply missing
 * from the list of calls that went through, and nothing else changes.
 */
module EventReminderServiceImpl {
  import opened Common

  /** A user as the reminder job sees it. */
  datatype Recipient = Recipient(id: nat, username: string, email: Option<string>)

  /** An event as loaded with its associations; None stands for a null organizer or a null attendee. */
  datatype ReminderEvent = ReminderEvent(
    id: nat,
    title: string,
    eventDate: Instant,
    dateText: string,
    status: EventStatus,
    organizer: Option<Recipient>,
    attendees: seq<Option<Recipient>>)

  /** A call into the notification service or the e-mail service. */
  datatype Call =
    | InApp(message: string, kind: NotificationType, to: Recipient, link: string)
    | ReminderMail(to: Recipient, eventId: nat, isOrganizer: bool)

  function OrganizerMessage(e: ReminderEvent): string
  {
    "Reminder: Your event '" + e.title + "' is happening in 24 hours (on " + e.dateText + ")."
  }

  function AttendeeMessage(e: ReminderEvent): string
  {
    "Reminder: Event '" + e.title + "' that you're attending is happening in 24 hours (on " + e.dateText + ")."
  }

  function DetailsLink(e: ReminderEvent): string
  {
    "/events/details/" + NatToString(e.id)
  }

  /** The attendees that are not null, in iteration order. */
  function NonNull(attendees: seq<Option<Recipient>>): seq<Recipient>
    decreases |attendees|
  {
    if attendees == [] then []
    else
      var last := attendees[|attendees| - 1];
      NonNull(attendees[..|attendees| - 1]) + (if last.Some? then [last.value] else [])
  }

  /** Exactly the attendees that are not null are kept. */
  lemma {:induction false} NonNullKeepsPresent(attendees: seq<Option<Recipient>>)
    ensures |NonNull(attendees)| <= |attendees|
    ensures forall x :: x in NonNull(attendees) <==> Some(x) in attendees
    decreases |attendees|
  {
    if attendees != [] {
      var front := attendees[..|attendees| - 1];
      NonNullKeepsPresent(front);
      assert attendees == front + [attendees[|attendees| - 1]];
    }
  }

  /** The two calls made for one recipient: the in-app notification, then the e-mail. */
  function CallsFor(e: ReminderEvent, to: Recipient, isOrganizer: bool): seq<Call>
  {
    [InApp(if isOrganizer then OrganizerMessage(e) else AttendeeMessage(e), EVENT_REMINDER, to, DetailsLink(e)),
     ReminderMail(to, e.id, isOrganizer)]
  }

  /** The calls for a list of attendees: two per attendee, in order. */
  function AttendeeCalls(e: ReminderEvent, rs: seq<Recipient>): seq<Call>
    decreases |rs|
  {
    if rs == [] then []
    else AttendeeCalls(e, rs[..|rs| - 1]) + CallsFor(e, rs[|rs| - 1], false)
  }

  /** Every call sendRemindersForEvent attempts for an event with an organizer. */
  function ReminderCalls(e: ReminderEvent): seq<Call>
    requires e.organizer.Some?
  {
    CallsFor(e, e.organizer.value, true) + AttendeeCalls(e, NonNull(e.attendees))
  }

  /** Each attendee in the list gets one in-app notification and then one attendee e-mail. */
  lemma {:induction false} AttendeeCallsShape(e: ReminderEvent, rs: seq<Recipient>)
    ensures |AttendeeCalls(e, rs)| == 2 * |rs|
    ensures forall k :: 0 <= k < |rs| ==>
              AttendeeCalls(e, rs)[2 * k] == InApp(AttendeeMessage(e), EVENT_REMINDER, rs[k], DetailsLink(e)) &&
              AttendeeCalls(e, rs)[2 * k + 1] == ReminderMail(rs[k], e.id, false)
    decreases |rs|
  {
    if rs != [] {
      var front := rs[..|rs| - 1];
      AttendeeCallsShape(e, front);
      var prev := AttendeeCalls(e, front);
      var last := CallsFor(e, rs[|rs| - 1], false);
      assert AttendeeCalls(e, rs) == prev + last;
      forall k | 0 <= k < |rs|
        ensures AttendeeCalls(e, rs)[2 * k] == InApp(AttendeeMessage(e), EVENT_REMINDER, rs[k], DetailsLink(e))
        ensures AttendeeCalls(e, rs)[2 * k + 1] == ReminderMail(rs[k], e.id, false)
      {
        if k < |front| {
          assert rs[k] == front[k];
          assert (prev + last)[2 * k] == prev[2 * k];
          assert (prev + last)[2 * k + 1] == prev[2 * k + 1];
        } else {
          assert (prev + last)[2 * k] == last[0];
          assert (prev + last)[2 * k + 1] == last[1];
        }
      }
    }
  }

  /**
   * The organizer gets the first two calls (the in-app notification, then
   * the organizer e-mail); each non-null attendee, in order, the next two;
   * null attendees get none.
   */
  lemma ReminderCallsShape(e: ReminderEvent)
    requires e.organizer.Some?
    ensures |ReminderCalls(e)| == 2 + 2 * |NonNull(e.attendees)|
    ensures ReminderCalls(e)[0] == InApp(OrganizerMessage(e), EVENT_REMINDER, e.organizer.value, DetailsLink(e))
    ensures ReminderCalls(e)[1] == ReminderMail(e.organizer.value, e.id, true)
    ensures forall k :: 0 <= k < |NonNull(e.attendees)| ==>
              ReminderCalls(e)[2 + 2 * k] == InApp(AttendeeMessage(e), EVENT_REMINDER, NonNull(e.attendees)[k], DetailsLink(e)) &&
              ReminderCalls(e)[3 + 2 * k] == ReminderMail(NonNull(e.attendees)[k], e.id, false)
  {
    var rs := NonNull(e.attendees);
    AttendeeCallsShape(e, rs);
    var head := CallsFor(e, e.organizer.value, true);
    var rest := AttendeeCalls(e, rs);
    assert ReminderCalls(e) == head + rest;
    forall k | 0 <= k < |rs|
      ensures ReminderCalls(e)[2 + 2 * k] == rest[2 * k]
      ensures ReminderCalls(e)[3 + 2 * k] == rest[2 * k + 1]
    {
      assert (head + rest)[2 + 2 * k] == rest[2 * k];
      assert (head + rest)[3 + 2 * k] == rest[2 * k + 1];
    }
  }

  /** The calls that did not throw. */
  function Survives(fails: Call -> bool): Call -> bool
  {
    c => !fails(c)
  }

  /** Whether sendRemindersForEvent reports success: the event and its organizer are present. */
  predicate Remindable(e: ReminderEvent)
  {
    e.organizer.Some?
  }

  /** The scheduled window: from 24 hours minus 30 minutes to 24 hours plus 30 minutes after `now`, APPROVED only. */
  function InWindow(now: Instant): ReminderEvent -> bool
  {
    (e: ReminderEvent) => now + 24 * HOUR - 30 * MINUTE <= e.eventDate <= now + 24 * HOUR + 30 * MINUTE && e.status == APPROVED
  }

  /** All calls the scheduled job attempts for the selected events, in order. */
  function ScheduleCalls(events: seq<ReminderEvent>): seq<Call>
    decreases |events|
  {
    if events == [] then []
    else
      var last := events[|events| - 1];
      ScheduleCalls(events[..|events| - 1]) + (if Remindable(last) then ReminderCalls(last) else [])
  }

  /** The position of the event with this id. */
  function IndexOfEvent(table: seq<ReminderEvent>, id: nat): (r: Option<nat>)
    ensures r.None? <==> forall i :: 0 <= i < |table| ==> table[i].id != id
    ensures r.Some? ==> r.value < |table| && table[r.value].id == id
  {
    FirstIndex(table, (x: ReminderEvent) => x.id == id)
  }

  /** Filtering the two calls made for one recipient keeps each one that did not throw. */
  lemma FilterPair(calls: seq<Call>, fails: Call -> bool)
    requires |calls| == 2
    ensures Filter(calls, Survives(fails)) ==
            (if fails(calls[0]) then [] else [calls[0]]) + (if fails(calls[1]) then [] else [calls[1]])
  {
    var p := Survives(fails);
    assert calls[1..][1..] == [];
    var tail := Filter(calls[1..], p);
    assert tail == if fails(calls[1]) then [] else [calls[1]];
    assert Filter(calls, p) == (if fails(calls[0]) then [] else [calls[0]]) + tail;
  }

  /** One more attendee: its calls, when it is not null, follow those made so far. */
  lemma AttendeeStep(e: ReminderEvent, head: seq<Call>, done: seq<Option<Recipient>>, a: Option<Recipient>,
                     fails: Call -> bool)
    ensures Filter(head + AttendeeCalls(e, NonNull(done + [a])), Survives(fails)) ==
            Filter(head + AttendeeCalls(e, NonNull(done)), Survives(fails)) +
            (if a.Some? then Filter(CallsFor(e, a.value, false), Survives(fails)) else [])
  {
    assert (done + [a])[..|done|] == done;
    if a.Some? {
      var rs := NonNull(done);
      assert NonNull(done + [a]) == rs + [a.value];
      assert (rs + [a.value])[..|rs|] == rs;
      assert AttendeeCalls(e, rs + [a.value]) == AttendeeCalls(e, rs) + CallsFor(e, a.value, false);
      assert head + AttendeeCalls(e, rs + [a.value]) == (head + AttendeeCalls(e, rs)) + CallsFor(e, a.value, false);
      FilterConcat(head + AttendeeCalls(e, rs), CallsFor(e, a.value, false), Survives(fails));
    } else {
      assert NonNull(done + [a]) == NonNull(done);
    }
  }

  /** The same step, stated for the first `k + 1` entries of the attendee list. */
  lemma AttendeePrefixStep(e: ReminderEvent, head: seq<Call>, attendees: seq<Option<Recipient>>, k: nat,
                           fails: Call -> bool)
    requires k < |attendees|
    ensures Filter(head + AttendeeCalls(e, NonNull(attendees[..k + 1])), Survives(fails)) ==
            Filter(head + AttendeeCalls(e, NonNull(attendees[..k])), Survives(fails)) +
            (if attendees[k].Some? then Filter(CallsFor(e, attendees[k].value, false), Survives(fails)) else [])
  {
    assert attendees[..k + 1] == attendees[..k] + [attendees[k]];
    AttendeeStep(e, head, attendees[..k], attendees[k], fails);
  }

  /** The in-app call, then the e-mail call, each in its own try/catch: one that throws is dropped and the other still runs. */
  method TryEach(calls: seq<Call>, fails: Call -> bool) returns (kept: seq<Call>)
    requires |calls| == 2
    ensures kept == Filter(calls, Survives(fails))
  {
    FilterPair(calls, fails);
    kept := [];
    if !fails(calls[0]) {
      kept := kept + [calls[0]];
    }
    if !fails(calls[1]) {
      kept := kept + [calls[1]];
    }
  }

  /**
   * sendRemindersForEvent: false with no call for a null event or a null
   * organizer; otherwise the organizer's two calls, then two calls for each
   * non-null attendee, and true whatever those calls did.
   */
  method SendRemindersForEvent(event: Option<ReminderEvent>, fails: Call -> bool)
    returns (ok: bool, delivered: seq<Call>)
    ensures ok <==> event.Some? && Remindable(event.value)
    ensures !ok ==> delivered == []
    ensures ok ==> delivered == Filter(ReminderCalls(event.value), Survives(fails))
  {
    if event.None? || event.value.organizer.None? {
      return false, [];
    }
    var e := event.value;
    var attendees := e.attendees;
    var head := CallsFor(e, e.organizer.value, true);
    delivered := TryEach(head, fails);
    var k := 0;
    assert NonNull(attendees[..0]) == [];
    assert head + AttendeeCalls(e, NonNull(attendees[..0])) == head;
    while k < |attendees|
      invariant 0 <= k <= |attendees|
      invariant delivered == Filter(head + AttendeeCalls(e, NonNull(attendees[..k])), Survives(fails))
    {
      var attendee := attendees[k];
      AttendeePrefixStep(e, head, attendees, k, fails);
      if attendee.Some? {
        var kept := TryEach(CallsFor(e, attendee.value, false), fails);
        delivered := delivered + kept;
      }
      k := k + 1;
    }
    assert attendees[..k] == attendees;
    ok := true;
  }

  /** One more event: its calls, when it has an organizer, follow those of the events before it. */
  lemma ScheduleStep(done: seq<ReminderEvent>, e: ReminderEvent, fails: Call -> bool)
    ensures Filter(ScheduleCalls(done + [e]), Survives(fails)) ==
            Filter(ScheduleCalls(done), Survives(fails)) + (if Remindable(e) then Filter(ReminderCalls(e), Survives(fails)) else [])
  {
    assert (done + [e])[..|done|] == done;
    assert ScheduleCalls(done + [e]) == ScheduleCalls(done) + (if Remindable(e) then ReminderCalls(e) else []);
    if Remindable(e) {
      FilterConcat(ScheduleCalls(done), ReminderCalls(e), Survives(fails));
    } else {
      assert ScheduleCalls(done) + [] == ScheduleCalls(done);
    }
  }

  /** What one more selected event adds to the count and to the delivered calls. */
  lemma RemindStep(upcoming: seq<ReminderEvent>, k: nat, fails: Call -> bool)
    requires k < |upcoming|
    ensures Count(upcoming[..k + 1], Remindable) ==
            Count(upcoming[..k], Remindable) + (if Remindable(upcoming[k]) then 1 else 0)
    ensures Filter(ScheduleCalls(upcoming[..k + 1]), Survives(fails)) ==
            Filter(ScheduleCalls(upcoming[..k]), Survives(fails)) +
            (if Remindable(upcoming[k]) then Filter(ReminderCalls(upcoming[k]), Survives(fails)) else [])
  {
    CountPrefix(upcoming, k, Remindable);
    assert upcoming[..k + 1] == upcoming[..k] + [upcoming[k]];
    ScheduleStep(upcoming[..k], upcoming[k], fails);
  }

  /**
   * processReminderSchedule: runs sendRemindersForEvent on each selected
   * event and returns how many succeeded; with nothing in the window it
   * returns 0 and makes no call.
   */
  method ProcessReminderSchedule(events: seq<ReminderEvent>, now: Instant, fails: Call -> bool)
    returns (sent: nat, delivered: seq<Call>)
    ensures sent == Count(Filter(events, InWindow(now)), Remindable)
    ensures sent <= |Filter(events, InWindow(now))|
    ensures delivered == Filter(ScheduleCalls(Filter(events, InWindow(now))), Survives(fails))
    ensures (forall e :: e in events ==> !InWindow(now)(e)) ==> sent == 0 && delivered == []
  {
    var upcoming := Filter(events, InWindow(now));
    sent, delivered := RemindEach(upcoming, fails);
  }

  /** The loop of processReminderSchedule over the selected events. */
  method RemindEach(upcoming: seq<ReminderEvent>, fails: Call -> bool) returns (sent: nat, delivered: seq<Call>)
    ensures sent == Count(upcoming, Remindable)
    ensures delivered == Filter(ScheduleCalls(upcoming), Survives(fails))
  {
    sent := 0;
    delivered := [];
    var k := 0;
    while k < |upcoming|
      invariant 0 <= k <= |upcoming|
      invariant sent == Count(upcoming[..k], Remindable)
      invariant delivered == Filter(ScheduleCalls(upcoming[..k]), Survives(fails))
    {
      RemindStep(upcoming, k, fails);
      var ok, d := SendRemindersForEvent(Some(upcoming[k]), fails);
      if ok {
        sent := sent + 1;
      }
      delivered := delivered + d;
      k := k + 1;
    }
    assert upcoming[..k] == upcoming;
  }

  /**
   * sendReminderForEvent: false without loading when no event has the id;
   * otherwise sendRemindersForEvent on the loaded event, whatever its status.
   */
  method SendReminderForEvent(table: seq<ReminderEvent>, id: nat, fails: Call -> bool)
    returns (ok: bool, delivered: seq<Call>)
    ensures IndexOfEvent(table, id).None? ==> !ok && delivered == []
    ensures IndexOfEvent(table, id).Some? ==>
              var e := table[IndexOfEvent(table, id).value];
              (ok <==> Remindable(e)) &&
              delivered == (if Remindable(e) then Filter(ReminderCalls(e), Survives(fails)) else [])
  {
    var index := IndexOfEvent(table, id);
    if index.None? {
      return false, [];
    }
    ok, delivered := SendRemindersForEvent(Some(table[index.value]), fails);
  }

  /** A failing call drops only itself: with no failures every attempted call goes through. */
  lemma {:induction false} NoFailureDeliversEverything(calls: seq<Call>, fails: Call -> bool)
    requires forall c :: !fails(c)
    ensures Filter(calls, Survives(fails)) == calls
    decreases |calls|
  {
    if calls != [] {
      NoFailureDeliversEverything(calls[1..], fails);
      assert calls == [calls[0]] + calls[1..];
    }
  }

  /** The manual trigger ignores the event's status: the same event with any other status gets the same calls. */
  lemma ManualTriggerIgnoresStatus(e: ReminderEvent, s: EventStatus)
    requires Remindable(e)
    ensures ReminderCalls(e.(status := s)) == ReminderCalls(e)
  {
    var e' := e.(status := s);
    assert NonNull(e'.attendees) == NonNull(e.attendees);
    assert OrganizerMessage(e') == OrganizerMessage(e) && AttendeeMessage(e') == AttendeeMessage(e);
    assert DetailsLink(e') == DetailsLink(e);
    AttendeeCallsIgnoreStatus(e, s, NonNull(e.attendees));
  }

  lemma {:induction false} AttendeeCallsIgnoreStatus(e: ReminderEvent, s: EventStatus, rs: seq<Recipient>)
    ensures AttendeeCalls(e.(status := s), rs) == AttendeeCalls(e, rs)
    decreases |rs|
  {
    if rs != [] {
      AttendeeCallsIgnoreStatus(e, s, rs[..|rs| - 1]);
    }
  }
}
