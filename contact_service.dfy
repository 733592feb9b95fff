/**
 * ContactServiceImpl: messages sent through the contact form, listed newest
 * first, marked read by an administrator, counted while unread, and deleted.
 */
module ContactServiceImpl {
  import opened Common

  /** The message column holds at most this many characters. */
  const MAX_MESSAGE_LENGTH: nat := 1000

  datatype ContactMessage = ContactMessage(
    id: nat,
    name: string,
    email: string,
    subject: string,
    message: string,
    createdAt: Instant,
    read: bool)

  function NewestFirstKey(m: ContactMessage): int { -m.createdAt }

  /** `findAllByOrderByCreatedAtDesc`: every message, newest first. */
  function AllNewestFirst(messages: seq<ContactMessage>): (r: seq<ContactMessage>)
    ensures multiset(r) == multiset(messages)
    ensures forall m :: m in r <==> m in messages
    ensures |r| == |messages|
    ensures forall i, j :: 0 <= i < j < |r| ==> r[i].createdAt >= r[j].createdAt
  {
    var r := SortBy(messages, NewestFirstKey);
    SortByMembers(messages, NewestFirstKey);
    assert forall i, j :: 0 <= i < j < |r| ==> NewestFirstKey(r[i]) <= NewestFirstKey(r[j]);
    r
  }

  predicate IsUnread(m: ContactMessage) { !m.read }

  /** `findByReadOrderByCreatedAtDesc(false)`: the unread messages, newest first. */
  function UnreadNewestFirst(messages: seq<ContactMessage>): (r: seq<ContactMessage>)
    ensures forall m :: m in r <==> m in messages && !m.read
    ensures forall m :: multiset(r)[m] == if !m.read then multiset(messages)[m] else 0
    ensures forall i, j :: 0 <= i < j < |r| ==> r[i].createdAt >= r[j].createdAt
  {
    AllNewestFirst(Filter(messages, IsUnread))
  }

  /** `countByRead(false)`. */
  function UnreadCount(messages: seq<ContactMessage>): (n: nat)
    ensures n == |Filter(messages, IsUnread)|
    ensures n == 0 <==> forall m :: m in messages ==> m.read
  {
    CountIsFilterLength(messages, IsUnread);
    Count(messages, IsUnread)
  }

  /** The count agrees with the unread listing. */
  lemma UnreadCountIsListingLength(messages: seq<ContactMessage>)
    ensures UnreadCount(messages) == |UnreadNewestFirst(messages)|
  {
    assert |AllNewestFirst(Filter(messages, IsUnread))| == |Filter(messages, IsUnread)|;
  }

  /** Marking message `i` read lowers the unread count by one when it was unread and leaves it alone otherwise. */
  lemma MarkingLowersUnreadByOne(messages: seq<ContactMessage>, i: nat)
    requires i < |messages|
    ensures UnreadCount(messages[i := messages[i].(read := true)]) ==
            UnreadCount(messages) - (if messages[i].read then 0 else 1)
  {
    CountUpdate(messages, i, messages[i].(read := true), IsUnread);
  }

  function IndexOfMessage(messages: seq<ContactMessage>, id: nat): (r: Option<nat>)
    ensures r.None? <==> forall i :: 0 <= i < |messages| ==> messages[i].id != id
    ensures r.Some? ==> r.value < |messages| && messages[r.value].id == id
  {
    FirstIndex(messages, (x: ContactMessage) => x.id == id)
  }

  function NotFoundMessage(id: nat): string
  {
    "Message not found with id: " + NatToString(id)
  }

  ghost predicate Wellformed(messages: seq<ContactMessage>, nextId: nat)
  {
    && (forall i :: 0 <= i < |messages| ==> messages[i].id < nextId)
    && (forall i, j :: 0 <= i < j < |messages| ==> messages[i].id != messages[j].id)
  }

  /** The table after `deleteById`: the message with this id removed; an unknown id changes nothing. */
  function Deleted(messages: seq<ContactMessage>, id: nat): (r: seq<ContactMessage>)
    ensures IndexOfMessage(messages, id).None? ==> r == messages
    ensures IndexOfMessage(messages, id).Some? ==> |r| == |messages| - 1
  {
    match IndexOfMessage(messages, id)
      case None => messages
      case Some(i) => messages[..i] + messages[i + 1..]
  }

  /** Deleting keeps every other message and only those, and the table stays well formed. */
  lemma DeleteRemovesExactlyThatMessage(messages: seq<ContactMessage>, id: nat, nextId: nat)
    requires Wellformed(messages, nextId)
    ensures forall m :: m in Deleted(messages, id) <==> m in messages && m.id != id
    ensures Wellformed(Deleted(messages, id), nextId)
  {
    match IndexOfMessage(messages, id)
      case None =>
      case Some(i) =>
        RemoveUniqueKey(messages, i, (m: ContactMessage) => m.id);
        WellformedRemove(messages, i, nextId);
  }

  lemma WellformedRemove(messages: seq<ContactMessage>, i: nat, nextId: nat)
    requires Wellformed(messages, nextId) && i < |messages|
    ensures Wellformed(messages[..i] + messages[i + 1..], nextId)
  {
    var rest := messages[..i] + messages[i + 1..];
    RemoveAtPositions(messages, i);
    forall k | 0 <= k < |rest|
      ensures rest[k] == messages[if k < i then k else k + 1]
    {
      if k >= i {
        assert rest[(k + 1) - 1] == messages[k + 1];
      }
    }
    forall a, b | 0 <= a < b < |rest|
      ensures rest[a].id != rest[b].id
    {
      var a', b' := if a < i then a else a + 1, if b < i then b else b + 1;
      assert rest[a] == messages[a'] && rest[b] == messages[b'];
    }
  }

  class ContactService {
    var messages: seq<ContactMessage>
    var nextId: nat

    ghost predicate Valid()
      reads this
    {
      Wellformed(messages, nextId)
    }

    constructor ()
      ensures Valid() && messages == []
    {
      messages := [];
      nextId := 1;
    }

    /** Stores the message unread, stamped `now`; a message over the column length is refused. */
    method SaveContactMessage(name: string, email: string, subject: string, message: string, now: Instant)
      returns (r: Result<ContactMessage>)
      requires Valid()
      modifies this
      ensures Valid()
      ensures |message| > MAX_MESSAGE_LENGTH ==>
                r == Err(ConstraintViolation("message")) && messages == old(messages) && nextId == old(nextId)
      ensures |message| <= MAX_MESSAGE_LENGTH ==>
                && r == Ok(ContactMessage(old(nextId), name, email, subject, message, now, false))
                && messages == old(messages) + [r.value] && nextId == old(nextId) + 1
    {
      if |message| > MAX_MESSAGE_LENGTH {
        return Err(ConstraintViolation("message"));
      }
      var saved := ContactMessage(nextId, name, email, subject, message, now, false);
      ghost var before := messages;
      messages := messages + [saved];
      assert forall k :: 0 <= k < |before| ==> messages[k] == before[k];
      nextId := nextId + 1;
      r := Ok(saved);
    }

    function GetAllMessages(): (r: seq<ContactMessage>)
      reads this
      ensures multiset(r) == multiset(messages)
      ensures forall i, j :: 0 <= i < j < |r| ==> r[i].createdAt >= r[j].createdAt
    {
      AllNewestFirst(messages)
    }

    function GetUnreadMessages(): (r: seq<ContactMessage>)
      reads this
      ensures forall m :: m in r <==> m in messages && !m.read
      ensures forall m :: multiset(r)[m] == if !m.read then multiset(messages)[m] else 0
      ensures forall i, j :: 0 <= i < j < |r| ==> r[i].createdAt >= r[j].createdAt
    {
      UnreadNewestFirst(messages)
    }

    function GetMessageById(id: nat): (r: Result<ContactMessage>)
      reads this
      ensures r.Err? <==> IndexOfMessage(messages, id).None?
      ensures r.Err? ==> r.error == IllegalArgument(NotFoundMessage(id))
      ensures r.Ok? ==> r.value in messages && r.value.id == id
    {
      match IndexOfMessage(messages, id)
        case None => Err(IllegalArgument(NotFoundMessage(id)))
        case Some(i) => Ok(messages[i])
    }

    /** Sets read; an unknown id is an error and saves nothing. */
    method MarkAsRead(id: nat) returns (r: Result<()>)
      requires Valid()
      modifies this
      ensures Valid() && nextId == old(nextId)
      ensures r.Err? <==> IndexOfMessage(old(messages), id).None?
      ensures r.Err? ==> r.error == IllegalArgument(NotFoundMessage(id)) && messages == old(messages)
      ensures r.Ok? ==> var i := IndexOfMessage(old(messages), id).value;
                        messages == old(messages)[i := old(messages)[i].(read := true)]
    {
      var index := IndexOfMessage(messages, id);
      if index.None? {
        return Err(IllegalArgument(NotFoundMessage(id)));
      }
      var i := index.value;
      messages := messages[i := messages[i].(read := true)];
      r := Ok(());
    }

    /** `deleteById`: removes the message with this id; an unknown id changes nothing. */
    method DeleteMessage(id: nat)
      requires Valid()
      modifies this
      ensures Valid() && nextId == old(nextId)
      ensures messages == Deleted(old(messages), id)
    {
      var index := IndexOfMessage(messages, id);
      if index.Some? {
        var i := index.value;
        DeleteRemovesExactlyThatMessage(messages, id, nextId);
        messages := messages[..i] + messages[i + 1..];
      }
    }

    function CountUnreadMessages(): (n: nat)
      reads this
      ensures n == |GetUnreadMessages()|
    {
      UnreadCountIsListingLength(messages);
      UnreadCount(messages)
    }
  }
}
