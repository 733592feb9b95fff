/**
 * EmailServiceImpl: plain and HTML mail behind an "enabled" switch, and the
 * event reminder mail with its guards and the fallbacks it uses for missing
 * names, dates and places. The mail server is the outbox; a send that
 * throws is caught and leaves the outbox as it was.
 */
module EmailServiceImpl {
  import opened Common

  /** A user as the mail builders see it; None is a null column. */
  datatype MailUser = MailUser(username: string, email: Option<string>, firstName: Option<string>, lastName: Option<string>)

  datatype MailLocation = MailLocation(name: Option<string>, address: Option<string>, city: Option<string>)

  /** An event as the mail builders see it; `dateText` is the formatted date, `attendees` None for a null set. */
  datatype MailEvent = MailEvent(
    id: nat,
    title: string,
    dateText: Option<string>,
    location: Option<MailLocation>,
    organizer: Option<MailUser>,
    attendees: Option<nat>)

  /** The values a reminder mail is built from; the surrounding markup is fixed. */
  datatype ReminderContent =
    | OrganizerReminder(greeting: string, title: string, when: string, place: string, address: string,
                        attendeeCount: nat, eventId: nat)
    | AttendeeReminder(greeting: string, title: string, when: string, place: string, address: string,
                       organizerName: string, eventId: nat)

  datatype Body = Plain(text: string) | Html(markup: string) | ReminderHtml(content: ReminderContent)

  datatype Mail = Mail(from: string, to: string, subject: string, body: Body)

  function OrElse(s: Option<string>, fallback: string): (r: string)
    ensures s.Some? ==> r == s.value
    ensures s.None? ==> r == fallback
  {
    if s.Some? then s.value else fallback
  }

  /** The characters Character.isWhitespace accepts, by code point. */
  predicate IsWhitespace(c: char)
  {
    var n := c as int;
    || (9 <= n <= 13) || (28 <= n <= 32)
    || n == 0x1680 || (0x2000 <= n <= 0x2006) || (0x2008 <= n <= 0x200A)
    || n == 0x2028 || n == 0x2029 || n == 0x205F || n == 0x3000
  }

  /** String.isBlank. */
  predicate IsBlank(s: string)
  {
    forall i :: 0 <= i < |s| ==> IsWhitespace(s[i])
  }

  /** "address, city" when both are non-empty, otherwise whichever is, otherwise "TBA"; a null part counts as empty. */
  function AddressLine(address: Option<string>, city: Option<string>): string
  {
    var a := OrElse(address, "");
    var c := OrElse(city, "");
    if a != "" && c != "" then a + ", " + c
    else if a != "" then a
    else if c != "" then c
    else "TBA"
  }

  /** The "Where" pair: the location's name and address line, both "TBA" without a location. */
  function Place(location: Option<MailLocation>): (string, string)
  {
    match location
      case None => ("TBA", "TBA")
      case Some(l) => (OrElse(l.name, "TBA"), AddressLine(l.address, l.city))
  }

  /** "first last" when both are non-empty, otherwise whichever is, otherwise "Event Organizer". */
  function OrganizerName(organizer: Option<MailUser>): string
  {
    match organizer
      case None => "Event Organizer"
      case Some(o) =>
        var f := OrElse(o.firstName, "");
        var l := OrElse(o.lastName, "");
        if f != "" && l != "" then f + " " + l
        else if f != "" then f
        else if l != "" then l
        else "Event Organizer"
  }

  /** The greeting: the recipient's first name, or the role when it is null. */
  function GreetingName(user: MailUser, isOrganizer: bool): string
  {
    OrElse(user.firstName, if isOrganizer then "Organizer" else "Attendee")
  }

  function Subject(title: string, isOrganizer: bool): string
  {
    if isOrganizer then "Reminder: Your Event '" + title + "' is Happening Tomorrow"
    else "Reminder: Event '" + title + "' is Happening Tomorrow"
  }

  /** What buildOrganizerReminderEmail or buildAttendeeReminderEmail fills into the markup. */
  function Content(user: MailUser, event: MailEvent, isOrganizer: bool): ReminderContent
  {
    var when := OrElse(event.dateText, "soon");
    var (place, address) := Place(event.location);
    if isOrganizer then
      OrganizerReminder(GreetingName(user, true), event.title, when, place, address,
                        if event.attendees.Some? then event.attendees.value else 0, event.id)
    else
      AttendeeReminder(GreetingName(user, false), event.title, when, place, address, OrganizerName(event.organizer), event.id)
  }

  /** Whether sendEventReminder gets as far as sending: a user with a non-blank address and an event. */
  predicate ReminderSendable(user: Option<MailUser>, event: Option<MailEvent>)
  {
    user.Some? && user.value.email.Some? && !IsBlank(user.value.email.value) && event.Some?
  }

  /** The address line is never empty, and it is "TBA" exactly when neither part has text. */
  lemma AddressLineFallback(address: Option<string>, city: Option<string>)
    ensures AddressLine(address, city) != ""
    ensures AddressLine(address, city) == "TBA" <==>
            (OrElse(address, "") == "" && OrElse(city, "") == "") ||
            (OrElse(address, "") == "TBA" && OrElse(city, "") == "") ||
            (OrElse(address, "") == "" && OrElse(city, "") == "TBA")
    ensures OrElse(address, "") != "" && OrElse(city, "") != "" ==>
            AddressLine(address, city) == OrElse(address, "") + ", " + OrElse(city, "")
  {
    var a := OrElse(address, "");
    var c := OrElse(city, "");
    if a != "" && c != "" {
      var r := a + ", " + c;
      assert |r| >= 4;
      assert r != "TBA" by {
        if |r| == 3 {
          assert false;
        }
      }
    }
  }

  /** The organizer name is never empty, and it names the organizer whenever a name part has text. */
  lemma OrganizerNameFallback(organizer: Option<MailUser>)
    ensures OrganizerName(organizer) != ""
    ensures organizer.Some? && OrElse(organizer.value.firstName, "") != "" ==>
            OrganizerName(organizer)[..|organizer.value.firstName.value|] == organizer.value.firstName.value
    ensures organizer.None? ==> OrganizerName(organizer) == "Event Organizer"
  {
  }

  /** The two subjects differ, so organizer and attendee mails are told apart. */
  lemma SubjectsDiffer(title: string)
    ensures Subject(title, true) != Subject(title, false)
  {
    assert Subject(title, true)[10] == 'Y';
    assert Subject(title, false)[10] == 'E';
  }

  class EmailService {
    var enabled: bool
    var fromAddress: string
    var outbox: seq<Mail>

    constructor (enabled: bool, fromAddress: string)
      ensures this.enabled == enabled && this.fromAddress == fromAddress && outbox == []
    {
      this.enabled := enabled;
      this.fromAddress := fromAddress;
      outbox := [];
    }

    /** Sends nothing when disabled; `fails` is whether the mail server throws, which is caught. */
    method SendSimpleMessage(to: string, subject: string, text: string, fails: bool)
      modifies this
      ensures enabled == old(enabled) && fromAddress == old(fromAddress)
      ensures outbox == if enabled && !fails then old(outbox) + [Mail(fromAddress, to, subject, Plain(text))] else old(outbox)
    {
      if !enabled {
        return;
      }
      if !fails {
        outbox := outbox + [Mail(fromAddress, to, subject, Plain(text))];
      }
    }

    method SendHtmlMessage(to: string, subject: string, markup: string, fails: bool)
      modifies this
      ensures enabled == old(enabled) && fromAddress == old(fromAddress)
      ensures outbox == if enabled && !fails then old(outbox) + [Mail(fromAddress, to, subject, Html(markup))] else old(outbox)
    {
      if !enabled {
        return;
      }
      if !fails {
        outbox := outbox + [Mail(fromAddress, to, subject, Html(markup))];
      }
    }

    /**
     * Sends nothing for a null user, a null or blank address, or a null
     * event; otherwise one HTML mail with the role's subject and content,
     * subject to the switch and to the server.
     */
    method SendEventReminder(user: Option<MailUser>, event: Option<MailEvent>, isOrganizer: bool, fails: bool)
      modifies this
      ensures enabled == old(enabled) && fromAddress == old(fromAddress)
      ensures !ReminderSendable(user, event) || !enabled || fails ==> outbox == old(outbox)
      ensures ReminderSendable(user, event) && enabled && !fails ==>
                outbox == old(outbox) + [Mail(fromAddress, user.value.email.value, Subject(event.value.title, isOrganizer),
                                              ReminderHtml(Content(user.value, event.value, isOrganizer)))]
    {
      if user.None? {
        return;
      }
      if user.value.email.None? || IsBlank(user.value.email.value) {
        return;
      }
      if event.None? {
        return;
      }
      var subject := Subject(event.value.title, isOrganizer);
      var content := Content(user.value, event.value, isOrganizer);
      if !enabled {
        return;
      }
      if !fails {
        outbox := outbox + [Mail(fromAddress, user.value.email.value, subject, ReminderHtml(content))];
      }
    }
  }
}
