/**
 * SimpleNotificationServiceImpl: the same bounded per-user log and fan-out
 * as NotificationServiceImpl, but no notification table: created
 * notifications are returned unsaved, the table queries are empty and the
 * read/delete operations change nothing.
 */
module SimpleNotificationServiceImpl {
  import opened Common
  import opened Entities
  import opened NotificationLog

  /** The unsaved notification createNotification returns: no id, unread, stamped `now`. */
  function UnsavedNotification(message: string, kind: NotificationType, userId: nat, link: Option<string>, now: Instant)
    : (n: Notification)
    ensures n.id.None? && !n.read && n.createdAt == now
    ensures n.message == message && n.kind == kind && n.userId == userId && n.link == link
  {
    Notification(None, message, kind, userId, link, now, false)
  }

  class SimpleNotificationService {
    var logs: map<string, seq<string>>

    ghost predicate Valid()
      reads this
    {
      Bounded(logs)
    }

    constructor ()
      ensures Valid() && logs == map[]
    {
      logs := map[];
    }

    /** Prepends "<stamp> - <message>" to the user's deque, then drops the oldest entries beyond the maximum; `stamp` is the clock read by this call. */
    method AddNotification(username: string, message: string, stamp: string)
      requires Valid()
      modifies this
      ensures Valid()
      ensures logs == Push(old(logs), Delivery(username, message), stamp)
    {
      var deque := LogOf(logs, username);
      ghost var before := deque;
      deque := [Entry(stamp, message)] + deque;
      while |deque| > MAX_NOTIFICATIONS
        invariant deque == ([Entry(stamp, message)] + before)[..|deque|]
        invariant |deque| >= MAX_NOTIFICATIONS || |deque| == |before| + 1
        decreases |deque|
      {
        deque := deque[..|deque| - 1];
      }
      logs := logs[username := deque];
    }

    /** The attendee loop: the same message to each user in turn, `stamps[i]` being the clock when `users[i]` is reached. */
    method AddForEach(users: seq<string>, message: string, stamps: seq<string>)
      requires Valid() && |stamps| == |users|
      modifies this
      ensures Valid()
      ensures logs == Deliver(old(logs), ToAll(users, message), stamps)
    {
      var i := 0;
      while i < |users|
        invariant 0 <= i <= |users|
        invariant Valid()
        invariant logs == Deliver(old(logs), ToAll(users[..i], message), stamps[..i])
      {
        ToAllStep(old(logs), users, message, stamps, i);
        AddNotification(users[i], message, stamps[i]);
        i := i + 1;
      }
      assert users[..i] == users && stamps[..i] == stamps;
    }

    /** The organizer always; the attendees too when the event became APPROVED or CANCELED. */
    method NotifyEventStatusChange(e: EventView, stamps: seq<string>)
      requires Valid() && |stamps| == |StatusChangeDeliveries(e)|
      modifies this
      ensures Valid()
      ensures logs == Deliver(old(logs), StatusChangeDeliveries(e), stamps)
    {
      var message := StatusChangeMessage(e);
      var first := Delivery(e.organizer, message);
      ghost var rest := if e.status == APPROVED || e.status == CANCELED then ToAll(e.attendees, message) else [];
      assert StatusChangeDeliveries(e) == [first] + rest;
      assert stamps == [stamps[0]] + stamps[1..];
      DeliverCons(old(logs), first, stamps[0], rest, stamps[1..]);
      AddNotification(e.organizer, message, stamps[0]);
      if e.status == APPROVED || e.status == CANCELED {
        AddForEach(e.attendees, message, stamps[1..]);
      }
    }

    method NotifyEventCreated(e: EventView, stamp: string)
      requires Valid()
      modifies this
      ensures Valid()
      ensures logs == Deliver(old(logs), CreatedDeliveries(e), [stamp])
    {
      AddNotification(e.organizer, "Your event '" + e.title + "' has been created and is pending approval", stamp);
      assert CreatedDeliveries(e)[..0] == [] && [stamp][..0] == [];
    }

    method NotifyEventCancelled(e: EventView, stamps: seq<string>)
      requires Valid() && |stamps| == |CancelledDeliveries(e)|
      modifies this
      ensures Valid()
      ensures logs == Deliver(old(logs), CancelledDeliveries(e), stamps)
    {
      AddForEach(e.attendees, "Event '" + e.title + "' scheduled for " + e.dateText + " has been cancelled", stamps);
    }

    /** The organizer is told first and the joining user second, each at their own clock reading. */
    method NotifyUserJoinedEvent(username: string, e: EventView, organizerStamp: string, userStamp: string)
      requires Valid()
      modifies this
      ensures Valid()
      ensures logs == Deliver(old(logs), JoinedDeliveries(username, e), [organizerStamp, userStamp])
    {
      var ds := JoinedDeliveries(username, e);
      AddNotification(e.organizer, ds[0].message, organizerStamp);
      assert logs == Deliver(old(logs), [ds[0]], [organizerStamp]) by {
        assert [ds[0]][..0] == [] && [organizerStamp][..0] == [];
      }
      AddNotification(username, ds[1].message, userStamp);
      DeliverSnoc(old(logs), [ds[0]], ds[1], [organizerStamp], userStamp);
      assert [ds[0]] + [ds[1]] == ds && [organizerStamp] + [userStamp] == [organizerStamp, userStamp];
    }

    /** The reminders for one event of tomorrow: its organizer, then each attendee. */
    method NotifyUpcomingEvent(e: EventView, stamps: seq<string>)
      requires Valid() && |stamps| == |UpcomingDeliveries(e)|
      modifies this
      ensures Valid()
      ensures logs == Deliver(old(logs), UpcomingDeliveries(e), stamps)
    {
      var first := Delivery(e.organizer, "Your event '" + e.title + "' is happening tomorrow at " + e.dateText);
      var reminder := "Reminder: Event '" + e.title + "' that you're attending is tomorrow at " + e.dateText;
      assert UpcomingDeliveries(e) == [first] + ToAll(e.attendees, reminder);
      assert stamps == [stamps[0]] + stamps[1..];
      DeliverCons(old(logs), first, stamps[0], ToAll(e.attendees, reminder), stamps[1..]);
      AddNotification(e.organizer, first.message, stamps[0]);
      AddForEach(e.attendees, reminder, stamps[1..]);
    }

    /**
     * The daily job: for each APPROVED event of tomorrow (from `tomorrow`, the
     * start of the next day, to one day later), the organizer and then each
     * attendee, one clock reading per message.
     */
    method NotifyUpcomingEvents(events: seq<EventView>, tomorrow: Instant, stamps: seq<string>)
      requires Valid() && |stamps| == |AllUpcomingDeliveries(EventsTomorrow(events, tomorrow))|
      modifies this
      ensures Valid()
      ensures logs == Deliver(old(logs), AllUpcomingDeliveries(EventsTomorrow(events, tomorrow)), stamps)
    {
      NotifyEachUpcoming(EventsTomorrow(events, tomorrow), stamps);
    }

    /** The loop of the daily job over the events it selected. */
    method NotifyEachUpcoming(upcoming: seq<EventView>, stamps: seq<string>)
      requires Valid() && |stamps| == |AllUpcomingDeliveries(upcoming)|
      modifies this
      ensures Valid()
      ensures logs == Deliver(old(logs), AllUpcomingDeliveries(upcoming), stamps)
    {
      var k, n := 0, 0;
      while k < |upcoming|
        invariant 0 <= k <= |upcoming|
        invariant Valid()
        invariant n == |AllUpcomingDeliveries(upcoming[..k])| <= |stamps|
        invariant logs == Deliver(old(logs), AllUpcomingDeliveries(upcoming[..k]), stamps[..n])
      {
        var m := |UpcomingDeliveries(upcoming[k])|;
        UpcomingStep(old(logs), upcoming, k, stamps);
        NotifyUpcomingEvent(upcoming[k], stamps[n..n + m]);
        k, n := k + 1, n + m;
      }
      assert upcoming[..k] == upcoming;
      assert stamps[..n] == stamps;
    }

    function GetRecentNotifications(username: string): (r: seq<string>)
      reads this
      requires Valid()
      ensures |r| <= MAX_NOTIFICATIONS
      ensures username !in logs ==> r == []
      ensures username in logs ==> r == logs[username]
    {
      LogOf(logs, username)
    }

    /** Delegates to notifyEventStatusChange whatever the requested type. */
    method CreateEventStatusNotification(e: EventView, kind: NotificationType, stamps: seq<string>)
      requires Valid() && |stamps| == |StatusChangeDeliveries(e)|
      modifies this
      ensures Valid()
      ensures logs == Deliver(old(logs), StatusChangeDeliveries(e), stamps)
    {
      NotifyEventStatusChange(e, stamps);
    }

    /** Delegates to notifyEventCreated: the organizer is told, not the admins. */
    method CreatePendingEventNotification(e: EventView, stamp: string)
      requires Valid()
      modifies this
      ensures Valid()
      ensures logs == Deliver(old(logs), CreatedDeliveries(e), [stamp])
    {
      NotifyEventCreated(e, stamp);
    }

    /** No table: every user's list of notifications is empty. */
    function GetNotificationsForUser(userId: nat): (r: seq<Notification>)
      ensures |r| == 0
    {
      []
    }

    function GetUnreadNotificationsForUser(userId: nat): (r: seq<Notification>)
      ensures |r| == 0
    {
      []
    }

    /** Zero for every user, in agreement with the empty unread list. */
    function GetUnreadNotificationCount(userId: nat): (n: nat)
      ensures n == |GetUnreadNotificationsForUser(userId)|
    {
      0
    }

    /** Only logs the call. */
    method MarkAsRead(id: nat)
      requires Valid()
      ensures logs == old(logs)
    {
    }

    method MarkAllAsRead(userId: nat)
      requires Valid()
      ensures logs == old(logs)
    {
    }

    method DeleteNotification(id: nat)
      requires Valid()
      ensures logs == old(logs)
    {
    }
  }
}
