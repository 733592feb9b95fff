/**
 * The in-memory notification log both notification services keep: per
 * username, a deque of "<timestamp> - <message>" strings, newest first, never
 * longer than MAX_NOTIFICATIONS; and the fan-out rules that decide which
 * users receive which message. Every entry is stamped with the clock read
 * when it is added, already formatted ("yyyy-MM-dd HH:mm") and passed in.
 */
module NotificationLog {
  import opened Common

  const MAX_NOTIFICATIONS: nat := 20

  /** An event as the notification services read it; `attendees` lists the attendee set in iteration order. */
  datatype EventView = EventView(
    id: nat,
    title: string,
    status: EventStatus,
    organizer: string,
    organizerId: nat,
    eventDate: Instant,
    dateText: string,
    attendees: seq<string>)

  /** A message addressed to one username. */
  datatype Delivery = Delivery(username: string, message: string)

  function Entry(stamp: string, message: string): string
  {
    stamp + " - " + message
  }

  /** The user's deque, or the empty list when the user has none (`getOrDefault`). */
  function LogOf(logs: map<string, seq<string>>, username: string): seq<string>
  {
    if username in logs then logs[username] else []
  }

  ghost predicate Bounded(logs: map<string, seq<string>>)
  {
    forall u :: u in logs ==> |logs[u]| <= MAX_NOTIFICATIONS
  }

  /** `addFirst(entry)` followed by `removeLast()` while the deque is longer than the maximum. */
  function Pushed(log: seq<string>, entry: string): (r: seq<string>)
    ensures |log| < MAX_NOTIFICATIONS ==> |r| == |log| + 1
    ensures |log| >= MAX_NOTIFICATIONS ==> |r| == MAX_NOTIFICATIONS
    ensures r[0] == entry
    ensures r[1..] == log[..|r| - 1]
  {
    var full := [entry] + log;
    if |full| > MAX_NOTIFICATIONS then full[..MAX_NOTIFICATIONS] else full
  }

  /** The logs after one delivery, read off the clock as `stamp`. */
  function Push(logs: map<string, seq<string>>, d: Delivery, stamp: string): map<string, seq<string>>
  {
    logs[d.username := Pushed(LogOf(logs, d.username), Entry(stamp, d.message))]
  }

  /**
   * The logs after a sequence of deliveries, made in order; the clock is read
   * once per delivery, and `stamps[k]` is the reading for `ds[k]`.
   */
  function Deliver(logs: map<string, seq<string>>, ds: seq<Delivery>, stamps: seq<string>): map<string, seq<string>>
    requires |stamps| == |ds|
    decreases |ds|
  {
    if ds == [] then logs
    else Push(Deliver(logs, ds[..|ds| - 1], stamps[..|ds| - 1]), ds[|ds| - 1], stamps[|ds| - 1])
  }

  lemma DeliverSnoc(logs: map<string, seq<string>>, ds: seq<Delivery>, d: Delivery, stamps: seq<string>, stamp: string)
    requires |stamps| == |ds|
    ensures Deliver(logs, ds + [d], stamps + [stamp]) == Push(Deliver(logs, ds, stamps), d, stamp)
  {
    assert (ds + [d])[..|ds|] == ds;
    assert (stamps + [stamp])[..|ds|] == stamps;
  }

  /** Delivering two batches one after the other is delivering their concatenation, clock readings included. */
  lemma {:induction false} DeliverConcat(logs: map<string, seq<string>>, a: seq<Delivery>, b: seq<Delivery>,
                                         sa: seq<string>, sb: seq<string>)
    requires |sa| == |a| && |sb| == |b|
    ensures Deliver(Deliver(logs, a, sa), b, sb) == Deliver(logs, a + b, sa + sb)
    decreases |b|
  {
    if b == [] {
      assert a + b == a;
      assert sa + sb == sa;
    } else {
      var front, d := b[..|b| - 1], b[|b| - 1];
      var sfront, s := sb[..|b| - 1], sb[|b| - 1];
      assert b == front + [d];
      assert sb == sfront + [s];
      DeliverConcat(logs, a, front, sa, sfront);
      assert a + b == (a + front) + [d];
      assert sa + sb == (sa + sfront) + [s];
      DeliverSnoc(logs, a + front, d, sa + sfront, s);
    }
  }

  /** Delivering a first message and then the rest is one push followed by delivering the rest. */
  lemma DeliverCons(logs: map<string, seq<string>>, d: Delivery, stamp: string, rest: seq<Delivery>, stamps: seq<string>)
    requires |stamps| == |rest|
    ensures Deliver(logs, [d] + rest, [stamp] + stamps) == Deliver(Push(logs, d, stamp), rest, stamps)
  {
    assert [d][..0] == [] && [stamp][..0] == [];
    assert Deliver(logs, [d], [stamp]) == Push(logs, d, stamp);
    DeliverConcat(logs, [d], rest, [stamp], stamps);
  }

  /** How many of the deliveries are addressed to `username`. */
  function Received(ds: seq<Delivery>, username: string): nat
  {
    Count(ds, (d: Delivery) => d.username == username)
  }

  lemma ReceivedSnoc(ds: seq<Delivery>, d: Delivery, username: string)
    ensures Received(ds + [d], username) == Received(ds, username) + (if d.username == username then 1 else 0)
  {
    CountAppend(ds, d, (x: Delivery) => x.username == username);
  }

  /** The same message to each user in turn. */
  function ToAll(users: seq<string>, message: string): (ds: seq<Delivery>)
    ensures |ds| == |users|
    ensures forall i :: 0 <= i < |users| ==> ds[i] == Delivery(users[i], message)
  {
    seq(|users|, i requires 0 <= i < |users| => Delivery(users[i], message))
  }

  /**
   * Delivering keeps every log within the maximum, creates a log only for a
   * recipient, leaves non-recipients untouched, and gives a recipient one
   * entry per message addressed to them, up to the maximum.
   */
  lemma DeliverEffect(logs: map<string, seq<string>>, ds: seq<Delivery>, stamps: seq<string>, u: string)
    requires Bounded(logs) && |stamps| == |ds|
    ensures Bounded(Deliver(logs, ds, stamps))
    ensures u in Deliver(logs, ds, stamps) <==> u in logs || Received(ds, u) > 0
    ensures Received(ds, u) == 0 ==> LogOf(Deliver(logs, ds, stamps), u) == LogOf(logs, u)
    ensures |LogOf(Deliver(logs, ds, stamps), u)| == Min(|LogOf(logs, u)| + Received(ds, u), MAX_NOTIFICATIONS)
  {
    DeliverStaysBounded(logs, ds, stamps);
    assert |LogOf(logs, u)| <= MAX_NOTIFICATIONS;
    DeliverLength(logs, ds, stamps, u);
    DeliverReach(logs, ds, stamps, u);
  }

  /** A log exists after delivering exactly for users who had one or received a message; the others' logs are untouched. */
  lemma {:induction false} DeliverReach(logs: map<string, seq<string>>, ds: seq<Delivery>, stamps: seq<string>, u: string)
    requires |stamps| == |ds|
    ensures u in Deliver(logs, ds, stamps) <==> u in logs || Received(ds, u) > 0
    ensures Received(ds, u) == 0 ==> LogOf(Deliver(logs, ds, stamps), u) == LogOf(logs, u)
    decreases |ds|
  {
    if ds != [] {
      var front, d := ds[..|ds| - 1], ds[|ds| - 1];
      var prev := Deliver(logs, front, stamps[..|ds| - 1]);
      assert Deliver(logs, ds, stamps) == Push(prev, d, stamps[|ds| - 1]);
      assert ds == front + [d];
      DeliverReach(logs, front, stamps[..|ds| - 1], u);
      ReceivedSnoc(front, d, u);
    }
  }

  /** A user's log grows by one per message addressed to them, up to the maximum. */
  lemma {:induction false} DeliverLength(logs: map<string, seq<string>>, ds: seq<Delivery>, stamps: seq<string>, u: string)
    requires |LogOf(logs, u)| <= MAX_NOTIFICATIONS && |stamps| == |ds|
    ensures |LogOf(Deliver(logs, ds, stamps), u)| == Min(|LogOf(logs, u)| + Received(ds, u), MAX_NOTIFICATIONS)
    decreases |ds|
  {
    if ds != [] {
      var front, d := ds[..|ds| - 1], ds[|ds| - 1];
      var sfront := stamps[..|ds| - 1];
      assert ds == front + [d];
      DeliverLength(logs, front, sfront, u);
      ReceivedSnoc(front, d, u);
      PushLength(Deliver(logs, front, sfront), d, stamps[|ds| - 1], u);
    }
  }

  /** One delivery adds one entry to its recipient's log, up to the maximum, and none to anyone else's. */
  lemma PushLength(logs: map<string, seq<string>>, d: Delivery, stamp: string, u: string)
    requires |LogOf(logs, u)| <= MAX_NOTIFICATIONS
    ensures |LogOf(Push(logs, d, stamp), u)| ==
            Min(|LogOf(logs, u)| + (if d.username == u then 1 else 0), MAX_NOTIFICATIONS)
  {
    if d.username == u {
      assert LogOf(Push(logs, d, stamp), u) == Pushed(LogOf(logs, u), Entry(stamp, d.message));
    } else {
      assert LogOf(Push(logs, d, stamp), u) == LogOf(logs, u);
    }
  }

  /** Delivering never lets a log grow past the maximum. */
  lemma {:induction false} DeliverStaysBounded(logs: map<string, seq<string>>, ds: seq<Delivery>, stamps: seq<string>)
    requires Bounded(logs) && |stamps| == |ds|
    ensures Bounded(Deliver(logs, ds, stamps))
    decreases |ds|
  {
    if ds != [] {
      DeliverStaysBounded(logs, ds[..|ds| - 1], stamps[..|ds| - 1]);
    }
  }

  function Min(a: int, b: int): int { if a < b then a else b }

  /** The newest entry of the last recipient is the last message, stamped with the last clock reading. */
  lemma DeliverNewest(logs: map<string, seq<string>>, ds: seq<Delivery>, stamps: seq<string>)
    requires ds != [] && |stamps| == |ds|
    ensures var d := ds[|ds| - 1];
            LogOf(Deliver(logs, ds, stamps), d.username) != [] &&
            LogOf(Deliver(logs, ds, stamps), d.username)[0] == Entry(stamps[|ds| - 1], d.message)
  {
  }

  /** Each user of a list without repetitions receives a message sent to all of them exactly once. */
  lemma {:induction false} ToAllReachesEachOnce(users: seq<string>, message: string, u: string)
    requires forall i, j :: 0 <= i < j < |users| ==> users[i] != users[j]
    ensures Received(ToAll(users, message), u) == if u in users then 1 else 0
    decreases |users|
  {
    if users != [] {
      var front, last := users[..|users| - 1], users[|users| - 1];
      assert users == front + [last];
      assert ToAll(users, message) == ToAll(front, message) + [Delivery(last, message)];
      ToAllReachesEachOnce(front, message, u);
      CountAppend(ToAll(front, message), Delivery(last, message), (x: Delivery) => x.username == u);
    }
  }

  /** notifyEventStatusChange: "Event '<title>' status has been changed to <STATUS>". */
  function StatusChangeMessage(e: EventView): string
  {
    "Event '" + e.title + "' status has been changed to " + StatusName(e.status)
  }

  /** The organizer always; the attendees only for APPROVED or CANCELED. */
  function StatusChangeDeliveries(e: EventView): (ds: seq<Delivery>)
    ensures |ds| == 1 + (if e.status == APPROVED || e.status == CANCELED then |e.attendees| else 0)
    ensures ds[0] == Delivery(e.organizer, StatusChangeMessage(e))
  {
    [Delivery(e.organizer, StatusChangeMessage(e))] +
    (if e.status == APPROVED || e.status == CANCELED then ToAll(e.attendees, StatusChangeMessage(e)) else [])
  }

  /**
   * The organizer is always told of a status change; an attendee other than
   * the organizer is told exactly when the new status is APPROVED or CANCELED;
   * nobody else is told.
   */
  lemma StatusChangeRecipients(e: EventView, u: string)
    requires forall i, j :: 0 <= i < j < |e.attendees| ==> e.attendees[i] != e.attendees[j]
    ensures Received(StatusChangeDeliveries(e), e.organizer) >= 1
    ensures u != e.organizer && u in e.attendees ==>
              (Received(StatusChangeDeliveries(e), u) == 1 <==> e.status == APPROVED || e.status == CANCELED)
    ensures u != e.organizer && u !in e.attendees ==> Received(StatusChangeDeliveries(e), u) == 0
  {
    var head := [Delivery(e.organizer, StatusChangeMessage(e))];
    var tail := if e.status == APPROVED || e.status == CANCELED then ToAll(e.attendees, StatusChangeMessage(e)) else [];
    CountConcat(head, tail, (x: Delivery) => x.username == u);
    CountConcat(head, tail, (x: Delivery) => x.username == e.organizer);
    ToAllReachesEachOnce(e.attendees, StatusChangeMessage(e), u);
  }

  /** notifyEventCreated: the organizer only. */
  function CreatedDeliveries(e: EventView): (ds: seq<Delivery>)
    ensures ds == [Delivery(e.organizer, "Your event '" + e.title + "' has been created and is pending approval")]
  {
    [Delivery(e.organizer, "Your event '" + e.title + "' has been created and is pending approval")]
  }

  /** notifyEventCancelled: every attendee, and not the organizer as such. */
  function CancelledDeliveries(e: EventView): (ds: seq<Delivery>)
    ensures |ds| == |e.attendees|
  {
    ToAll(e.attendees, "Event '" + e.title + "' scheduled for " + e.dateText + " has been cancelled")
  }

  /** Each attendee hears of a cancellation once; an organizer who does not attend hears nothing. */
  lemma CancelledRecipients(e: EventView, u: string)
    requires forall i, j :: 0 <= i < j < |e.attendees| ==> e.attendees[i] != e.attendees[j]
    ensures Received(CancelledDeliveries(e), u) == if u in e.attendees then 1 else 0
    ensures e.organizer !in e.attendees ==> Received(CancelledDeliveries(e), e.organizer) == 0
  {
    ToAllReachesEachOnce(e.attendees, "Event '" + e.title + "' scheduled for " + e.dateText + " has been cancelled", u);
    ToAllReachesEachOnce(e.attendees, "Event '" + e.title + "' scheduled for " + e.dateText + " has been cancelled", e.organizer);
  }

  /** notifyUserJoinedEvent: first the organizer, then the joining user. */
  function JoinedDeliveries(username: string, e: EventView): (ds: seq<Delivery>)
    ensures |ds| == 2 && ds[0].username == e.organizer && ds[1].username == username
  {
    [Delivery(e.organizer, "User " + username + " has joined your event '" + e.title + "'"),
     Delivery(username, "You have successfully joined the event '" + e.title + "'")]
  }

  /** A join gives the organizer and the joining user one entry each (two if they are the same user). */
  lemma JoinedRecipients(username: string, e: EventView, u: string)
    ensures Received(JoinedDeliveries(username, e), u) ==
              (if u == e.organizer then 1 else 0) + (if u == username then 1 else 0)
  {
    var ds := JoinedDeliveries(username, e);
    assert ds == [ds[0]] + [ds[1]];
    CountConcat([ds[0]], [ds[1]], (x: Delivery) => x.username == u);
  }

  /** notifyUpcomingEvents for one event: the organizer, then each attendee. */
  function UpcomingDeliveries(e: EventView): (ds: seq<Delivery>)
    ensures |ds| == 1 + |e.attendees| && ds[0].username == e.organizer
  {
    [Delivery(e.organizer, "Your event '" + e.title + "' is happening tomorrow at " + e.dateText)] +
    ToAll(e.attendees, "Reminder: Event '" + e.title + "' that you're attending is tomorrow at " + e.dateText)
  }

  /** notifyUpcomingEvents for a list of events, event by event. */
  function AllUpcomingDeliveries(events: seq<EventView>): (ds: seq<Delivery>)
    ensures |ds| >= |events|
    decreases |events|
  {
    if events == [] then []
    else AllUpcomingDeliveries(events[..|events| - 1]) + UpcomingDeliveries(events[|events| - 1])
  }

  /** The deliveries for the first `k` upcoming events begin the deliveries for all of them. */
  lemma {:induction false} AllUpcomingPrefix(upcoming: seq<EventView>, k: nat)
    requires k <= |upcoming|
    ensures var pre := AllUpcomingDeliveries(upcoming[..k]);
            |pre| <= |AllUpcomingDeliveries(upcoming)| && AllUpcomingDeliveries(upcoming)[..|pre|] == pre
    decreases |upcoming| - k
  {
    if k < |upcoming| {
      AllUpcomingPrefix(upcoming, k + 1);
      assert upcoming[..k + 1][..k] == upcoming[..k];
      var pre := AllUpcomingDeliveries(upcoming[..k]);
      var next := AllUpcomingDeliveries(upcoming[..k + 1]);
      assert next == pre + UpcomingDeliveries(upcoming[k]);
      assert next[..|pre|] == pre;
    } else {
      assert upcoming[..k] == upcoming;
    }
  }

  /** Delivering for one more upcoming event, on the next clock readings, extends the delivery of those before it. */
  lemma UpcomingStep(logs: map<string, seq<string>>, upcoming: seq<EventView>, k: nat, stamps: seq<string>)
    requires k < |upcoming| && |stamps| == |AllUpcomingDeliveries(upcoming)|
    ensures var n, m := |AllUpcomingDeliveries(upcoming[..k])|, |UpcomingDeliveries(upcoming[k])|;
            n + m == |AllUpcomingDeliveries(upcoming[..k + 1])| <= |stamps| &&
            Deliver(logs, AllUpcomingDeliveries(upcoming[..k + 1]), stamps[..n + m])
              == Deliver(Deliver(logs, AllUpcomingDeliveries(upcoming[..k]), stamps[..n]), UpcomingDeliveries(upcoming[k]), stamps[n..n + m])
  {
    var pre, next, both := AllUpcomingDeliveries(upcoming[..k]), UpcomingDeliveries(upcoming[k]), AllUpcomingDeliveries(upcoming[..k + 1]);
    AllUpcomingSnoc(upcoming, k);
    assert both == pre + next;
    AllUpcomingPrefix(upcoming, k + 1);
    assert |both| <= |stamps|;
    DeliverSplit(logs, pre, next, stamps);
    assert Deliver(logs, both, stamps[..|pre| + |next|]) == Deliver(logs, pre + next, stamps[..|pre| + |next|]);
  }

  /** The reminders for the first `k + 1` events are those for the first `k` followed by those for event `k`. */
  lemma AllUpcomingSnoc(upcoming: seq<EventView>, k: nat)
    requires k < |upcoming|
    ensures AllUpcomingDeliveries(upcoming[..k + 1]) == AllUpcomingDeliveries(upcoming[..k]) + UpcomingDeliveries(upcoming[k])
  {
    assert upcoming[..k + 1][..k] == upcoming[..k];
  }

  /** Delivering `a + b` on a prefix of the readings is delivering `a` on its share and then `b` on the next ones. */
  lemma DeliverSplit(logs: map<string, seq<string>>, a: seq<Delivery>, b: seq<Delivery>, stamps: seq<string>)
    requires |a| + |b| <= |stamps|
    ensures Deliver(logs, a + b, stamps[..|a| + |b|]) == Deliver(Deliver(logs, a, stamps[..|a|]), b, stamps[|a|..|a| + |b|])
  {
    var sa, sb := stamps[..|a|], stamps[|a|..|a| + |b|];
    assert sa + sb == stamps[..|a| + |b|];
    DeliverConcat(logs, a, b, sa, sb);
  }

  /** Reaching one more user of the list, at the next clock reading, is one more push. */
  lemma ToAllStep(logs: map<string, seq<string>>, users: seq<string>, message: string, stamps: seq<string>, i: nat)
    requires i < |users| == |stamps|
    ensures Deliver(logs, ToAll(users[..i + 1], message), stamps[..i + 1])
              == Push(Deliver(logs, ToAll(users[..i], message), stamps[..i]), Delivery(users[i], message), stamps[i])
  {
    assert ToAll(users[..i + 1], message) == ToAll(users[..i], message) + [Delivery(users[i], message)];
    assert stamps[..i + 1] == stamps[..i] + [stamps[i]];
    DeliverSnoc(logs, ToAll(users[..i], message), Delivery(users[i], message), stamps[..i], stamps[i]);
  }

  /** The APPROVED events dated from the start of tomorrow up to the start of the day after, both inclusive. */
  function EventsTomorrow(events: seq<EventView>, tomorrow: Instant): (r: seq<EventView>)
    ensures forall e :: e in r <==> e in events && tomorrow <= e.eventDate <= tomorrow + 24 * HOUR && e.status == APPROVED
    ensures forall e :: multiset(r)[e] == if tomorrow <= e.eventDate <= tomorrow + 24 * HOUR && e.status == APPROVED then multiset(events)[e] else 0
    ensures IsSubsequence(r, events)
  {
    Filter(events, (e: EventView) => tomorrow <= e.eventDate <= tomorrow + 24 * HOUR && e.status == APPROVED)
  }
}
