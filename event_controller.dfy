/**
 * EventController: the decisions it takes before and after calling the
 * services: calendar month navigation, the deadline check on the event
 * form, where approve/reject/cancel/delete redirect to, and the
 * certificate status guard.
 */
module EventController {
  import opened Common

  /** What a handler returns: a redirect (with an optional flash error) or a form view. */
  datatype View =
    | Redirect(url: string, flash: Option<string>)
    | Form(template: string, error: Option<FormError>)

  /** A form error: the message of an IllegalStateException, or a prefix before any other exception's message. */
  datatype FormError = Message(text: string) | Failure(prefix: string, error: Error)

  /** The month shown: the requested one when it is in 1..12, otherwise the current month. */
  function ClampMonth(month: Option<int>, currentMonth: int): (m: int)
    requires 1 <= currentMonth <= 12
    ensures 1 <= m <= 12
    ensures month.Some? && 1 <= month.value <= 12 ==> m == month.value
    ensures (month.None? || !(1 <= month.value <= 12)) ==> m == currentMonth
  {
    if month.None? then currentMonth
    else if month.value < 1 || month.value > 12 then currentMonth
    else month.value
  }

  /** The "previous" link: month − 1, wrapping from January to December of the year before. */
  function PrevMonth(year: int, month: int): (int, int)
  {
    (if month > 1 then year else year - 1, if month > 1 then month - 1 else 12)
  }

  /** The "next" link: month + 1, wrapping from December to January of the year after. */
  function NextMonth(year: int, month: int): (int, int)
  {
    (if month < 12 then year else year + 1, if month < 12 then month + 1 else 1)
  }

  /** The month index `12·year + month` a (year, month) pair stands for. */
  function MonthIndex(year: int, month: int): int { 12 * year + month }

  /**
   * From a month in 1..12, both links stay in 1..12, step exactly one month
   * back or forward, and undo each other.
   */
  lemma NavigationRoundTrip(year: int, month: int)
    requires 1 <= month <= 12
    ensures 1 <= PrevMonth(year, month).1 <= 12 && 1 <= NextMonth(year, month).1 <= 12
    ensures MonthIndex(PrevMonth(year, month).0, PrevMonth(year, month).1) == MonthIndex(year, month) - 1
    ensures MonthIndex(NextMonth(year, month).0, NextMonth(year, month).1) == MonthIndex(year, month) + 1
    ensures NextMonth(PrevMonth(year, month).0, PrevMonth(year, month).1) == (year, month)
    ensures PrevMonth(NextMonth(year, month).0, NextMonth(year, month).1) == (year, month)
  {
  }

  /** The form check: a deadline strictly after the event date is rejected; a missing one of the two is not checked. */
  predicate DeadlineAfterEvent(deadline: Option<Instant>, eventDate: Option<Instant>)
  {
    deadline.Some? && eventDate.Some? && deadline.value > eventDate.value
  }

  /**
   * POST /events/create. `created` is what createEvent answered when it was
   * called: the new event's id or its error.
   */
  function CreateEventView(authenticated: bool, bindingErrors: bool, deadline: Option<Instant>, eventDate: Option<Instant>,
                           created: Result<nat>): (v: View)
    ensures !authenticated ==> v == Redirect("/users/login", None)
    ensures authenticated && (bindingErrors || DeadlineAfterEvent(deadline, eventDate)) ==> v == Form("event-create", None)
    ensures v.Redirect? && v.url != "/users/login" ==>
              authenticated && !bindingErrors && !DeadlineAfterEvent(deadline, eventDate) && created.Ok? &&
              v.url == "/events/details/" + NatToString(created.value)
  {
    if !authenticated then Redirect("/users/login", None)
    else if bindingErrors || DeadlineAfterEvent(deadline, eventDate) then Form("event-create", None)
    else match created
      case Ok(id) =>
        assert ("/events/details/" + NatToString(id))[1] == 'e';
        Redirect("/events/details/" + NatToString(id), None)
      case Err(IllegalState(m)) => Form("event-create", Some(Message(m)))
      case Err(e) => Form("event-create", Some(Failure("Error creating event: ", e)))
  }

  /** POST /events/edit/{id}, with `updated` what updateEvent answered when it was called. */
  function UpdateEventView(id: nat, bindingErrors: bool, deadline: Option<Instant>, eventDate: Option<Instant>,
                           updated: Result<()>): (v: View)
    ensures bindingErrors || DeadlineAfterEvent(deadline, eventDate) ==> v == Form("event-edit", None)
    ensures v.Redirect? <==> !bindingErrors && !DeadlineAfterEvent(deadline, eventDate) && updated.Ok?
    ensures v.Redirect? ==> v.url == "/events/details/" + NatToString(id)
  {
    if bindingErrors || DeadlineAfterEvent(deadline, eventDate) then Form("event-edit", None)
    else match updated
      case Ok(_) => Redirect("/events/details/" + NatToString(id), None)
      case Err(IllegalState(m)) => Form("event-edit", Some(Message(m)))
      case Err(e) => Form("event-edit", Some(Failure("Error updating event: ", e)))
  }

  /** Where approve, reject, cancel and delete send the browser: a non-empty redirectUrl, else their default. */
  function RedirectAfter(redirectUrl: Option<string>, default: string): (url: string)
    ensures redirectUrl.Some? && redirectUrl.value != "" ==> url == redirectUrl.value
    ensures redirectUrl.None? || redirectUrl.value == "" ==> url == default
  {
    if redirectUrl.Some? && redirectUrl.value != "" then redirectUrl.value else default
  }

  function ApproveRedirect(id: nat, redirectUrl: Option<string>): string
  {
    RedirectAfter(redirectUrl, "/events/details/" + NatToString(id))
  }

  function RejectRedirect(id: nat, redirectUrl: Option<string>): string
  {
    RedirectAfter(redirectUrl, "/events/details/" + NatToString(id))
  }

  function CancelRedirect(redirectUrl: Option<string>): string
  {
    RedirectAfter(redirectUrl, "/events/my-events")
  }

  function DeleteRedirect(redirectUrl: Option<string>): string
  {
    RedirectAfter(redirectUrl, "/events/my-events")
  }

  /** A caller's redirectUrl wins over every default, and an empty one is ignored. */
  lemma RedirectUrlWins(id: nat, u: string)
    requires u != ""
    ensures ApproveRedirect(id, Some(u)) == RejectRedirect(id, Some(u)) == CancelRedirect(Some(u)) == DeleteRedirect(Some(u)) == u
    ensures ApproveRedirect(id, Some("")) == ApproveRedirect(id, None) == "/events/details/" + NatToString(id)
    ensures CancelRedirect(Some("")) == DeleteRedirect(None) == "/events/my-events"
  {
  }

  /**
   * GET /events/{id}/certificate, up to the remote call: a non-APPROVED event
   * is sent back to its page with an error and no remote call is made (None
   * means the handler goes on to the certificate service).
   */
  function CertificateGuard(id: nat, status: EventStatus): (v: Option<View>)
    ensures v.None? <==> status == APPROVED
    ensures v.Some? ==> v.value == Redirect("/events/details/" + NatToString(id),
                                            Some("Certificates are only available for approved events."))
  {
    if status != APPROVED then
      Some(Redirect("/events/details/" + NatToString(id), Some("Certificates are only available for approved events.")))
    else None
  }
}
