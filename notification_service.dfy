/**
 * NotificationServiceImpl: the bounded in-memory log per username, the
 * fan-out of event changes into it, and the persisted notification table
 * (NotificationRepository) with its read flags.
 */
module NotificationServiceImpl {
  import opened Common
  import opened Entities
  import opened NotificationLog

  /** The wording of createEventStatusNotification for each notification type. */
  function StatusNotificationMessage(title: string, kind: NotificationType): string
  {
    match kind
      case EVENT_APPROVED => "Your event \"" + title + "\" has been approved."
      case EVENT_REJECTED => "Your event \"" + title + "\" has been rejected."
      case EVENT_CANCELED => "Your event \"" + title + "\" has been canceled."
      case _ => "There's an update to your event \"" + title + "\"."
  }

  /** Approval, rejection and cancellation each have their own wording, and every other type shares the generic one. */
  lemma StatusNotificationWording(title: string, kind: NotificationType)
    ensures StatusNotificationMessage(title, EVENT_APPROVED) != StatusNotificationMessage(title, EVENT_REJECTED)
    ensures StatusNotificationMessage(title, EVENT_APPROVED) != StatusNotificationMessage(title, EVENT_CANCELED)
    ensures StatusNotificationMessage(title, EVENT_REJECTED) != StatusNotificationMessage(title, EVENT_CANCELED)
    ensures kind !in {EVENT_APPROVED, EVENT_REJECTED, EVENT_CANCELED} ==>
              StatusNotificationMessage(title, kind) == StatusNotificationMessage(title, SYSTEM) &&
              StatusNotificationMessage(title, kind) != StatusNotificationMessage(title, EVENT_APPROVED)
  {
    var p := "Your event \"" + title + "\" has been ";
    assert StatusNotificationMessage(title, EVENT_APPROVED) == p + "approved.";
    assert StatusNotificationMessage(title, EVENT_REJECTED) == p + "rejected.";
    assert StatusNotificationMessage(title, EVENT_CANCELED) == p + "canceled.";
    assert (p + "approved.")[|p|] == 'a' && (p + "rejected.")[|p|] == 'r' && (p + "canceled.")[|p|] == 'c';
    if kind !in {EVENT_APPROVED, EVENT_REJECTED, EVENT_CANCELED} {
      assert StatusNotificationMessage(title, kind)[0] == 'T';
      assert StatusNotificationMessage(title, EVENT_APPROVED)[0] == 'Y';
    }
  }

  /** The link of a status notification. */
  function EventLink(id: nat): string
  {
    "/events/details/" + NatToString(id)
  }

  function PendingMessage(e: EventView): string
  {
    "New event \"" + e.title + "\" by " + e.organizer + " is waiting for approval."
  }

  /** The rows createPendingEventNotification saves: one NEW_EVENT_PENDING per admin, ids from `firstId`. */
  function PendingRows(e: EventView, admins: seq<User>, firstId: nat, now: Instant): (rows: seq<Notification>)
    ensures |rows| == |admins|
    ensures forall k :: 0 <= k < |admins| ==>
              rows[k] == Notification(Some(firstId + k), PendingMessage(e), NEW_EVENT_PENDING, admins[k].id,
                                      Some("/users/admin/users"), now, false)
  {
    seq(|admins|, k requires 0 <= k < |admins| =>
      Notification(Some(firstId + k), PendingMessage(e), NEW_EVENT_PENDING, admins[k].id, Some("/users/admin/users"), now, false))
  }

  function CreatedAtKey(n: Notification): int { -n.createdAt }

  /** `ORDER BY createdAt DESC` over the rows a query selected. */
  function NewestFirst(ns: seq<Notification>): (r: seq<Notification>)
    ensures multiset(r) == multiset(ns)
    ensures forall n :: n in r <==> n in ns
    ensures forall i, j :: 0 <= i < j < |r| ==> r[i].createdAt >= r[j].createdAt
  {
    var r := SortBy(ns, CreatedAtKey);
    SortByMembers(ns, CreatedAtKey);
    assert forall i, j :: 0 <= i < j < |r| ==> CreatedAtKey(r[i]) <= CreatedAtKey(r[j]);
    r
  }

  /** `findByUserOrderByCreatedAtDesc`. */
  function NotificationsFor(store: seq<Notification>, userId: nat): (r: seq<Notification>)
    ensures forall n :: n in r <==> n in store && n.userId == userId
    ensures forall n :: multiset(r)[n] == if n.userId == userId then multiset(store)[n] else 0
    ensures forall i, j :: 0 <= i < j < |r| ==> r[i].createdAt >= r[j].createdAt
  {
    NewestFirst(Filter(store, (n: Notification) => n.userId == userId))
  }

  /** `findByUserAndReadFalseOrderByCreatedAtDesc`. */
  function UnreadFor(store: seq<Notification>, userId: nat): (r: seq<Notification>)
    ensures forall n :: n in r <==> n in store && n.userId == userId && !n.read
    ensures forall n :: multiset(r)[n] == if n.userId == userId && !n.read then multiset(store)[n] else 0
    ensures forall i, j :: 0 <= i < j < |r| ==> r[i].createdAt >= r[j].createdAt
  {
    NewestFirst(Filter(store, (n: Notification) => n.userId == userId && !n.read))
  }

  predicate IsUnreadOf(n: Notification, userId: nat) { n.userId == userId && !n.read }

  /** `countByUserAndReadFalse`. */
  function UnreadCount(store: seq<Notification>, userId: nat): (n: nat)
    ensures n == |UnreadFor(store, userId)|
    ensures n == 0 <==> forall x :: x in store ==> !IsUnreadOf(x, userId)
  {
    var p := (x: Notification) => x.userId == userId && !x.read;
    CountIsFilterLength(store, p);
    Count(store, p)
  }

  /** The table after markAllAsRead: the user's notifications read, everyone else's untouched. */
  function AllMarkedRead(store: seq<Notification>, userId: nat): (r: seq<Notification>)
    ensures |r| == |store|
    ensures forall k :: 0 <= k < |store| ==>
              r[k] == if IsUnreadOf(store[k], userId) then store[k].(read := true) else store[k]
  {
    seq(|store|, k requires 0 <= k < |store| =>
      if IsUnreadOf(store[k], userId) then store[k].(read := true) else store[k])
  }

  /** After markAllAsRead the user has no unread notification and every other user's count is unchanged. */
  lemma MarkAllLeavesNothingUnread(store: seq<Notification>, userId: nat, other: nat)
    requires other != userId
    ensures UnreadCount(AllMarkedRead(store, userId), userId) == 0
    ensures UnreadCount(AllMarkedRead(store, userId), other) == UnreadCount(store, other)
  {
    var r := AllMarkedRead(store, userId);
    forall x | x in r
      ensures !IsUnreadOf(x, userId)
    {
      var k :| 0 <= k < |r| && r[k] == x;
    }
    CountPointwise(r, store, (x: Notification) => x.userId == other && !x.read);
  }

  /** Marking one notification read lowers its owner's unread count by one when it was unread, and no other user's. */
  lemma MarkOneLowersUnread(store: seq<Notification>, i: nat, userId: nat)
    requires i < |store|
    ensures UnreadCount(store[i := store[i].(read := true)], userId) ==
            UnreadCount(store, userId) - (if IsUnreadOf(store[i], userId) then 1 else 0)
  {
    CountUpdate(store, i, store[i].(read := true), (x: Notification) => x.userId == userId && !x.read);
  }

  /** Deleting a notification lowers its owner's unread count by one when it was unread, and no other user's. */
  lemma DeleteLowersUnread(store: seq<Notification>, i: nat, userId: nat)
    requires i < |store|
    ensures UnreadCount(store[..i] + store[i + 1..], userId) ==
            UnreadCount(store, userId) - (if IsUnreadOf(store[i], userId) then 1 else 0)
  {
    CountRemove(store, i, (x: Notification) => x.userId == userId && !x.read);
  }

  /** Stored notifications have distinct ids below the id generator; logs are within the maximum. */
  ghost predicate Wellformed(logs: map<string, seq<string>>, store: seq<Notification>, nextId: nat)
  {
    && Bounded(logs)
    && (forall i :: 0 <= i < |store| ==> store[i].id.Some? && store[i].id.value < nextId)
    && (forall i, j :: 0 <= i < j < |store| ==> store[i].id != store[j].id)
  }

  /** The position of the stored notification with this id. */
  function IndexOfId(store: seq<Notification>, id: nat): (r: Option<nat>)
    ensures r.None? <==> forall i :: 0 <= i < |store| ==> store[i].id != Some(id)
    ensures r.Some? ==> r.value < |store| && store[r.value].id == Some(id)
  {
    FirstIndex(store, (x: Notification) => x.id == Some(id))
  }

  class NotificationService {
    var logs: map<string, seq<string>>
    var store: seq<Notification>
    var nextId: nat

    ghost predicate Valid()
      reads this
    {
      Wellformed(logs, store, nextId)
    }

    constructor ()
      ensures Valid() && logs == map[] && store == []
    {
      logs := map[];
      store := [];
      nextId := 1;
    }

    /** Prepends "<stamp> - <message>" to the user's deque, then drops the oldest entries beyond the maximum; `stamp` is the clock read by this call. */
    method AddNotification(username: string, message: string, stamp: string)
      requires Valid()
      modifies this
      ensures Valid()
      ensures logs == Push(old(logs), Delivery(username, message), stamp)
      ensures store == old(store) && nextId == old(nextId)
    {
      var deque := LogOf(logs, username);
      ghost var before := deque;
      deque := [Entry(stamp, message)] + deque;
      while |deque| > MAX_NOTIFICATIONS
        invariant deque == ([Entry(stamp, message)] + before)[..|deque|]
        invariant |deque| >= MAX_NOTIFICATIONS || |deque| == |before| + 1
        decreases |deque|
      {
        deque := deque[..|deque| - 1];
      }
      logs := logs[username := deque];
    }

    /** The attendee loop: the same message to each user in turn, `stamps[i]` being the clock when `users[i]` is reached. */
    method AddForEach(users: seq<string>, message: string, stamps: seq<string>)
      requires Valid() && |stamps| == |users|
      modifies this
      ensures Valid()
      ensures logs == Deliver(old(logs), ToAll(users, message), stamps)
      ensures store == old(store) && nextId == old(nextId)
    {
      var i := 0;
      while i < |users|
        invariant 0 <= i <= |users|
        invariant Valid() && store == old(store) && nextId == old(nextId)
        invariant logs == Deliver(old(logs), ToAll(users[..i], message), stamps[..i])
      {
        ToAllStep(old(logs), users, message, stamps, i);
        AddNotification(users[i], message, stamps[i]);
        i := i + 1;
      }
      assert users[..i] == users && stamps[..i] == stamps;
    }

    /** The organizer always; the attendees too when the event became APPROVED or CANCELED. */
    method NotifyEventStatusChange(e: EventView, stamps: seq<string>)
      requires Valid() && |stamps| == |StatusChangeDeliveries(e)|
      modifies this
      ensures Valid()
      ensures logs == Deliver(old(logs), StatusChangeDeliveries(e), stamps)
      ensures store == old(store) && nextId == old(nextId)
    {
      var message := StatusChangeMessage(e);
      var first := Delivery(e.organizer, message);
      ghost var rest := if e.status == APPROVED || e.status == CANCELED then ToAll(e.attendees, message) else [];
      assert StatusChangeDeliveries(e) == [first] + rest;
      assert stamps == [stamps[0]] + stamps[1..];
      DeliverCons(old(logs), first, stamps[0], rest, stamps[1..]);
      AddNotification(e.organizer, message, stamps[0]);
      if e.status == APPROVED || e.status == CANCELED {
        AddForEach(e.attendees, message, stamps[1..]);
      }
    }

    method NotifyEventCreated(e: EventView, stamp: string)
      requires Valid()
      modifies this
      ensures Valid()
      ensures logs == Deliver(old(logs), CreatedDeliveries(e), [stamp])
      ensures store == old(store) && nextId == old(nextId)
    {
      AddNotification(e.organizer, "Your event '" + e.title + "' has been created and is pending approval", stamp);
      assert CreatedDeliveries(e)[..0] == [] && [stamp][..0] == [];
    }

    method NotifyEventCancelled(e: EventView, stamps: seq<string>)
      requires Valid() && |stamps| == |CancelledDeliveries(e)|
      modifies this
      ensures Valid()
      ensures logs == Deliver(old(logs), CancelledDeliveries(e), stamps)
      ensures store == old(store) && nextId == old(nextId)
    {
      AddForEach(e.attendees, "Event '" + e.title + "' scheduled for " + e.dateText + " has been cancelled", stamps);
    }

    /** The organizer is told first and the joining user second, each at their own clock reading. */
    method NotifyUserJoinedEvent(username: string, e: EventView, organizerStamp: string, userStamp: string)
      requires Valid()
      modifies this
      ensures Valid()
      ensures logs == Deliver(old(logs), JoinedDeliveries(username, e), [organizerStamp, userStamp])
      ensures store == old(store) && nextId == old(nextId)
    {
      var ds := JoinedDeliveries(username, e);
      AddNotification(e.organizer, ds[0].message, organizerStamp);
      assert logs == Deliver(old(logs), [ds[0]], [organizerStamp]) by {
        assert [ds[0]][..0] == [] && [organizerStamp][..0] == [];
      }
      AddNotification(username, ds[1].message, userStamp);
      DeliverSnoc(old(logs), [ds[0]], ds[1], [organizerStamp], userStamp);
      assert [ds[0]] + [ds[1]] == ds && [organizerStamp] + [userStamp] == [organizerStamp, userStamp];
    }

    /** The reminders for one event of tomorrow: its organizer, then each attendee. */
    method NotifyUpcomingEvent(e: EventView, stamps: seq<string>)
      requires Valid() && |stamps| == |UpcomingDeliveries(e)|
      modifies this
      ensures Valid()
      ensures logs == Deliver(old(logs), UpcomingDeliveries(e), stamps)
      ensures store == old(store) && nextId == old(nextId)
    {
      var first := Delivery(e.organizer, "Your event '" + e.title + "' is happening tomorrow at " + e.dateText);
      var reminder := "Reminder: Event '" + e.title + "' that you're attending is tomorrow at " + e.dateText;
      assert UpcomingDeliveries(e) == [first] + ToAll(e.attendees, reminder);
      assert stamps == [stamps[0]] + stamps[1..];
      DeliverCons(old(logs), first, stamps[0], ToAll(e.attendees, reminder), stamps[1..]);
      AddNotification(e.organizer, first.message, stamps[0]);
      AddForEach(e.attendees, reminder, stamps[1..]);
    }

    /**
     * The daily job: for each APPROVED event of tomorrow (from `tomorrow`, the
     * start of the next day, to one day later), the organizer and then each
     * attendee, one clock reading per message.
     */
    method NotifyUpcomingEvents(events: seq<EventView>, tomorrow: Instant, stamps: seq<string>)
      requires Valid() && |stamps| == |AllUpcomingDeliveries(EventsTomorrow(events, tomorrow))|
      modifies this
      ensures Valid()
      ensures logs == Deliver(old(logs), AllUpcomingDeliveries(EventsTomorrow(events, tomorrow)), stamps)
      ensures store == old(store) && nextId == old(nextId)
    {
      NotifyEachUpcoming(EventsTomorrow(events, tomorrow), stamps);
    }

    /** The loop of the daily job over the events it selected. */
    method NotifyEachUpcoming(upcoming: seq<EventView>, stamps: seq<string>)
      requires Valid() && |stamps| == |AllUpcomingDeliveries(upcoming)|
      modifies this
      ensures Valid()
      ensures logs == Deliver(old(logs), AllUpcomingDeliveries(upcoming), stamps)
      ensures store == old(store) && nextId == old(nextId)
    {
      var k, n := 0, 0;
      while k < |upcoming|
        invariant 0 <= k <= |upcoming|
        invariant Valid() && store == old(store) && nextId == old(nextId)
        invariant n == |AllUpcomingDeliveries(upcoming[..k])| <= |stamps|
        invariant logs == Deliver(old(logs), AllUpcomingDeliveries(upcoming[..k]), stamps[..n])
      {
        var m := |UpcomingDeliveries(upcoming[k])|;
        UpcomingStep(old(logs), upcoming, k, stamps);
        NotifyUpcomingEvent(upcoming[k], stamps[n..n + m]);
        k, n := k + 1, n + m;
      }
      assert upcoming[..k] == upcoming;
      assert stamps[..n] == stamps;
    }

    /** A newest-first copy of the user's log; an unknown user gets an empty list and no log is created. */
    function GetRecentNotifications(username: string): (r: seq<string>)
      reads this
      requires Valid()
      ensures |r| <= MAX_NOTIFICATIONS
      ensures username !in logs ==> r == []
      ensures username in logs ==> r == logs[username]
    {
      LogOf(logs, username)
    }

    /** Saves a new unread notification stamped `now`. */
    method CreateNotification(message: string, kind: NotificationType, userId: nat, link: Option<string>, now: Instant)
      returns (n: Notification)
      requires Valid()
      modifies this
      ensures Valid() && logs == old(logs)
      ensures n == Notification(Some(old(nextId)), message, kind, userId, link, now, false)
      ensures store == old(store) + [n] && nextId == old(nextId) + 1
    {
      n := Notification(Some(nextId), message, kind, userId, link, now, false);
      ghost var before := store;
      store := store + [n];
      assert forall k :: 0 <= k < |before| ==> store[k] == before[k];
      nextId := nextId + 1;
    }

    /** A notification to the organizer, worded by `kind`, linking to the event's page. */
    method CreateEventStatusNotification(e: EventView, kind: NotificationType, now: Instant)
      requires Valid()
      modifies this
      ensures Valid() && logs == old(logs)
      ensures store == old(store) + [Notification(Some(old(nextId)), StatusNotificationMessage(e.title, kind), kind,
                                                  e.organizerId, Some(EventLink(e.id)), now, false)]
      ensures nextId == old(nextId) + 1
    {
      var _ := CreateNotification(StatusNotificationMessage(e.title, kind), kind, e.organizerId, Some(EventLink(e.id)), now);
    }

    /** One NEW_EVENT_PENDING notification per admin (`admins` as getAllAdmins returns them). */
    method CreatePendingEventNotification(e: EventView, admins: seq<User>, now: Instant)
      requires Valid()
      modifies this
      ensures Valid() && logs == old(logs)
      ensures store == old(store) + PendingRows(e, admins, old(nextId), now)
      ensures nextId == old(nextId) + |admins|
    {
      var message := PendingMessage(e);
      var k := 0;
      while k < |admins|
        invariant 0 <= k <= |admins|
        invariant Valid() && logs == old(logs)
        invariant nextId == old(nextId) + k
        invariant store == old(store) + PendingRows(e, admins[..k], old(nextId), now)
      {
        var _ := CreateNotification(message, NEW_EVENT_PENDING, admins[k].id, Some("/users/admin/users"), now);
        assert PendingRows(e, admins[..k + 1], old(nextId), now) == PendingRows(e, admins[..k], old(nextId), now) +
          [Notification(Some(old(nextId) + k), message, NEW_EVENT_PENDING, admins[k].id, Some("/users/admin/users"), now, false)];
        k := k + 1;
      }
      assert admins[..k] == admins;
    }

    function GetNotificationsForUser(userId: nat): (r: seq<Notification>)
      reads this
      ensures forall n :: n in r <==> n in store && n.userId == userId
      ensures forall n :: multiset(r)[n] == if n.userId == userId then multiset(store)[n] else 0
      ensures forall i, j :: 0 <= i < j < |r| ==> r[i].createdAt >= r[j].createdAt
    {
      NotificationsFor(store, userId)
    }

    function GetUnreadNotificationsForUser(userId: nat): (r: seq<Notification>)
      reads this
      ensures forall n :: n in r <==> n in store && n.userId == userId && !n.read
      ensures forall n :: multiset(r)[n] == if n.userId == userId && !n.read then multiset(store)[n] else 0
      ensures forall i, j :: 0 <= i < j < |r| ==> r[i].createdAt >= r[j].createdAt
    {
      UnreadFor(store, userId)
    }

    function GetUnreadNotificationCount(userId: nat): (n: nat)
      reads this
      ensures n == |GetUnreadNotificationsForUser(userId)|
    {
      UnreadCount(store, userId)
    }

    /** Marks one notification read; an unknown id changes nothing. */
    method MarkAsRead(id: nat)
      requires Valid()
      modifies this
      ensures Valid() && logs == old(logs) && nextId == old(nextId)
      ensures IndexOfId(old(store), id).None? ==> store == old(store)
      ensures IndexOfId(old(store), id).Some? ==>
                var i := IndexOfId(old(store), id).value;
                store == old(store)[i := old(store)[i].(read := true)]
    {
      var index := IndexOfId(store, id);
      if index.Some? {
        var i := index.value;
        store := store[i := store[i].(read := true)];
      }
    }

    /** Marks each of the user's unread notifications read. */
    method MarkAllAsRead(userId: nat)
      requires Valid()
      modifies this
      ensures Valid() && logs == old(logs) && nextId == old(nextId)
      ensures store == AllMarkedRead(old(store), userId)
    {
      var k := 0;
      while k < |store|
        invariant 0 <= k <= |store| && |store| == |old(store)|
        invariant Valid() && logs == old(logs) && nextId == old(nextId)
        invariant forall j :: 0 <= j < k ==> store[j] == AllMarkedRead(old(store), userId)[j]
        invariant forall j :: k <= j < |store| ==> store[j] == old(store)[j]
      {
        if IsUnreadOf(store[k], userId) {
          store := store[k := store[k].(read := true)];
        }
        k := k + 1;
      }
    }

    /** `deleteById`: removes the notification with this id; an unknown id changes nothing. */
    method DeleteNotification(id: nat)
      requires Valid()
      modifies this
      ensures Valid() && logs == old(logs) && nextId == old(nextId)
      ensures IndexOfId(old(store), id).None? ==> store == old(store)
      ensures IndexOfId(old(store), id).Some? ==>
                var i := IndexOfId(old(store), id).value;
                store == old(store)[..i] + old(store)[i + 1..]
    {
      var index := IndexOfId(store, id);
      if index.Some? {
        var i := index.value;
        ghost var before := store;
        store := store[..i] + store[i + 1..];
        assert forall k :: 0 <= k < |store| ==> store[k] == before[if k < i then k else k + 1];
      }
    }
  }
}
