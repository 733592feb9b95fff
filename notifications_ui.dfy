/**
 * notifications.js: the notification dropdown of the browser layer. The
 * unread badge, the list rendered from the unread notifications the server
 * returns (icon per type, date with a "Just now" fallback, a "View" link only
 * for a non-empty link), and the success handlers of "mark all read", of a
 * click on an item and of deleting an item.
 *
 * The page is a `NotificationDropdown` object whose fields are the parts of
 * the DOM the script rewrites; the HTTP requests and the polling timer are
 * outside the model, and their successful responses are the arguments of the
 * handlers.
 */
module NotificationsScript {
  import opened Common

  /** A notification as the server's JSON gives it; absent or null fields are `None`. */
  datatype JsonNotification = JsonNotification(
    id: string,
    kind: string,
    message: string,
    createdAt: Option<string>,
    link: Option<string>)

  /** JavaScript truthiness of an optional string: present and not empty. */
  predicate Truthy(o: Option<string>)
  {
    o.Some? && o.value != ""
  }

  const APPROVED_ICON := "<i class=\"bi bi-check-circle-fill text-success\"></i>"
  const REJECTED_ICON := "<i class=\"bi bi-x-circle-fill text-danger\"></i>"
  const CANCELED_ICON := "<i class=\"bi bi-slash-circle-fill text-warning\"></i>"
  const PENDING_ICON := "<i class=\"bi bi-hourglass-split text-primary\"></i>"
  const MESSAGE_ICON := "<i class=\"bi bi-envelope-fill text-info\"></i>"
  const GEAR_ICON := "<i class=\"bi bi-gear-fill text-secondary\"></i>"

  const JUST_NOW := "Just now"

  /** The types with an icon of their own. */
  predicate HasOwnIcon(kind: string)
  {
    kind in {"EVENT_APPROVED", "EVENT_REJECTED", "EVENT_CANCELED", "NEW_EVENT_PENDING", "NEW_MESSAGE"}
  }

  /** The icon switch: five types have their own icon, SYSTEM and every other string the gear. */
  function IconFor(kind: string): (icon: string)
    ensures icon == GEAR_ICON <==> !HasOwnIcon(kind)
  {
    if kind == "EVENT_APPROVED" then APPROVED_ICON
    else if kind == "EVENT_REJECTED" then REJECTED_ICON
    else if kind == "EVENT_CANCELED" then CANCELED_ICON
    else if kind == "NEW_EVENT_PENDING" then PENDING_ICON
    else if kind == "NEW_MESSAGE" then MESSAGE_ICON
    else GEAR_ICON
  }

  /** Different types with icons of their own never share an icon. */
  lemma OwnIconsAreDistinct(a: string, b: string)
    requires HasOwnIcon(a) && HasOwnIcon(b) && a != b
    ensures IconFor(a) != IconFor(b)
  {
    assert APPROVED_ICON[16] == 'c' && REJECTED_ICON[16] == 'x' && CANCELED_ICON[16] == 's';
    assert PENDING_ICON[16] == 'h' && MESSAGE_ICON[16] == 'e';
  }

  /**
   * The date column. `format` stands for `new Date(c)` followed by the locale
   * formatting: `None` when the date is invalid. A missing or empty
   * `createdAt`, or one that does not parse, shows "Just now"; nothing throws.
   */
  function DateText(createdAt: Option<string>, format: string -> Option<string>): (text: string)
    ensures !Truthy(createdAt) ==> text == JUST_NOW
    ensures Truthy(createdAt) && format(createdAt.value).None? ==> text == JUST_NOW
    ensures Truthy(createdAt) && format(createdAt.value).Some? ==> text == format(createdAt.value).value
  {
    if Truthy(createdAt) && format(createdAt.value).Some? then format(createdAt.value).value
    else JUST_NOW
  }

  /** One rendered `.notification-item`. */
  datatype Item = Item(
    id: string,
    icon: string,
    message: string,
    date: string,
    viewLink: Option<string>,
    unread: bool,
    indicatorShown: bool)

  /** The item the template builds for one notification. */
  function ItemOf(n: JsonNotification, format: string -> Option<string>): (item: Item)
    ensures item.id == n.id && item.message == n.message
    ensures item.unread && item.indicatorShown
    ensures item.icon == IconFor(n.kind) && item.date == DateText(n.createdAt, format)
    ensures item.viewLink.Some? <==> Truthy(n.link)
    ensures item.viewLink.Some? ==> item.viewLink == n.link
  {
    Item(n.id, IconFor(n.kind), n.message, DateText(n.createdAt, format),
         if Truthy(n.link) then n.link else None, true, true)
  }

  /** `#notificationList`: the fixed empty-state markup, or the items. */
  datatype ListContent = EmptyState | Items(items: seq<Item>)

  /** The markup shown when there is nothing to list. */
  const EMPTY_STATE_HTML :=
    "<div class=\"text-center py-4 notification-empty\">" +
    "<i class=\"bi bi-bell text-muted fs-3\"></i>" +
    "<p class=\"text-muted mt-2\">No new notifications</p>" +
    "</div>"

  /** `#notificationBadge` with its `#notificationCount` text. */
  datatype Badge = Badge(text: string, shown: bool)

  /** `updateNotificationBadge(count)`. */
  function BadgeAfter(badge: Badge, count: int): (r: Badge)
    ensures r.shown <==> count > 0
    ensures count > 0 ==> r.text == IntToString(count)
    ensures count <= 0 ==> r.text == badge.text
  {
    if count > 0 then Badge(IntToString(count), true) else badge.(shown := false)
  }

  /** Showing the same count twice is the same as showing it once. */
  lemma BadgeUpdateIsIdempotent(badge: Badge, count: int)
    ensures BadgeAfter(BadgeAfter(badge, count), count) == BadgeAfter(badge, count)
  {
  }

  /** An item after "mark all read": unread class and indicator gone, the rest as it was. */
  function ReadItem(item: Item): Item
  {
    item.(unread := false, indicatorShown := false)
  }

  function AllRead(items: seq<Item>): (r: seq<Item>)
    ensures |r| == |items|
    ensures forall i :: 0 <= i < |r| ==> r[i] == ReadItem(items[i])
  {
    seq(|items|, i requires 0 <= i < |items| => ReadItem(items[i]))
  }

  predicate IsUnreadItem(item: Item) { item.unread }

  /** After "mark all read" no item is unread, and every id, message and link is kept in order. */
  lemma MarkAllReadClearsEveryItem(items: seq<Item>)
    ensures Count(AllRead(items), IsUnreadItem) == 0
    ensures forall i :: 0 <= i < |items| ==>
              AllRead(items)[i].id == items[i].id && AllRead(items)[i].message == items[i].message &&
              AllRead(items)[i].viewLink == items[i].viewLink && !AllRead(items)[i].indicatorShown
  {
    CountIsFilterLength(AllRead(items), IsUnreadItem);
  }

  /** The list after deleting the item at `i`: the empty state once no item is left. */
  function ListAfterDelete(items: seq<Item>, i: nat): (r: ListContent)
    requires i < |items|
    ensures r.EmptyState? <==> |items| == 1
    ensures r.Items? ==> |r.items| == |items| - 1 && r.items == items[..i] + items[i + 1..]
  {
    var rest := items[..i] + items[i + 1..];
    if |rest| == 0 then EmptyState else Items(rest)
  }

  /** Deleting removes exactly the clicked item and keeps the others in order. */
  lemma {:induction false} DeleteKeepsOthersInOrder(items: seq<Item>, i: nat)
    requires i < |items| && |items| > 1
    ensures ListAfterDelete(items, i).Items?
    ensures forall k :: 0 <= k < |items| - 1 ==>
              ListAfterDelete(items, i).items[k] == items[if k < i then k else k + 1]
  {
    var rest := items[..i] + items[i + 1..];
    forall k | 0 <= k < |items| - 1
      ensures rest[k] == items[if k < i then k else k + 1]
    {
      if k < i {
        assert rest[k] == items[..i][k];
      } else {
        assert rest[k] == items[i + 1..][k - i];
      }
    }
  }

  /**
   * The request a click on an item sends: `/notifications/mark-read/<id>`,
   * unless the click landed inside a button of the item (its delete button).
   */
  function MarkReadRequest(id: string, insideButton: bool): (url: Option<string>)
    ensures url.None? <==> insideButton
    ensures url.Some? ==> url.value == "/notifications/mark-read/" + id
  {
    if insideButton then None else Some("/notifications/mark-read/" + id)
  }

  /** `renderNotifications`' forEach: one item per notification, in order. */
  method BuildItems(notifications: seq<JsonNotification>, format: string -> Option<string>)
    returns (items: seq<Item>)
    ensures |items| == |notifications|
    ensures forall i :: 0 <= i < |items| ==> items[i] == ItemOf(notifications[i], format)
  {
    items := [];
    var k := 0;
    while k < |notifications|
      invariant 0 <= k <= |notifications|
      invariant |items| == k
      invariant forall i :: 0 <= i < k ==> items[i] == ItemOf(notifications[i], format)
    {
      items := items + [ItemOf(notifications[k], format)];
      k := k + 1;
    }
  }

  /** The rendered list never holds zero items: an empty list is shown as the empty state. */
  ghost predicate Wellformed(list: ListContent)
  {
    list.Items? ==> |list.items| > 0
  }

  class NotificationDropdown {
    var badge: Badge
    var list: ListContent

    ghost predicate Valid()
      reads this
    {
      Wellformed(list)
    }

    constructor (badgeText: string)
      ensures Valid()
      ensures badge == Badge(badgeText, false) && list == EmptyState
    {
      badge := Badge(badgeText, false);
      list := EmptyState;
    }

    /** `updateNotificationBadge`. */
    method UpdateNotificationBadge(count: int)
      modifies this
      ensures badge == BadgeAfter(old(badge), count) && list == old(list)
    {
      if count > 0 {
        badge := Badge(IntToString(count), true);
      } else {
        badge := badge.(shown := false);
      }
    }

    /** `renderNotifications`: the empty state for no notifications, else one item each. */
    method RenderNotifications(notifications: seq<JsonNotification>, format: string -> Option<string>)
      modifies this
      ensures Valid() && badge == old(badge)
      ensures notifications == [] ==> list == EmptyState
      ensures notifications != [] ==>
                list.Items? && |list.items| == |notifications| &&
                forall i :: 0 <= i < |notifications| ==> list.items[i] == ItemOf(notifications[i], format)
    {
      if |notifications| == 0 {
        list := EmptyState;
        return;
      }
      var items := BuildItems(notifications, format);
      list := Items(items);
    }

    /** The success handler of "mark all read": badge for count 0, every item read. */
    method MarkAllReadSucceeded()
      requires Valid()
      modifies this
      ensures Valid()
      ensures badge == BadgeAfter(old(badge), 0)
      ensures old(list).EmptyState? ==> list == EmptyState
      ensures old(list).Items? ==> list == Items(AllRead(old(list).items))
    {
      badge := BadgeAfter(badge, 0);
      if list.Items? {
        list := Items(AllRead(list.items));
      }
    }

    /** The success handler of deleting item `i`: the item goes, and an emptied list shows the empty state. */
    method DeleteSucceeded(i: nat)
      requires Valid() && list.Items? && i < |list.items|
      modifies this
      ensures Valid() && badge == old(badge)
      ensures list == ListAfterDelete(old(list).items, i)
    {
      list := ListAfterDelete(list.items, i);
    }
  }
}
