/**
 * PaymentServiceImpl: one payment per ticket, created PENDING for the
 * ticket's price, with lookups by id, transaction id and ticket, and status
 * updates. The ticket and event tables are read here and never written.
 */
module PaymentServiceImpl {
  import opened Common
  import opened Entities
  import TR = TicketRepository

  datatype PaymentStatus = PENDING | COMPLETED | FAILED | REFUNDED

  datatype Payment = Payment(
    id: nat,
    transactionId: string,
    amount: int,
    paymentDate: Instant,
    status: PaymentStatus,
    paymentMethod: string,
    userId: nat,
    ticketId: nat,
    createdAt: Option<Instant>,
    updatedAt: Option<Instant>)

  function IndexOfPayment(payments: seq<Payment>, id: nat): (r: Option<nat>)
    ensures r.None? <==> forall i :: 0 <= i < |payments| ==> payments[i].id != id
    ensures r.Some? ==> r.value < |payments| && payments[r.value].id == id
  {
    FirstIndex(payments, (x: Payment) => x.id == id)
  }

  /** `findByTransactionId`. */
  function PaymentByTransaction(payments: seq<Payment>, transactionId: string): (r: Option<Payment>)
    ensures r.None? <==> forall p :: p in payments ==> p.transactionId != transactionId
    ensures r.Some? ==> r.value in payments && r.value.transactionId == transactionId
  {
    if payments == [] then None
    else if payments[0].transactionId == transactionId then Some(payments[0])
    else PaymentByTransaction(payments[1..], transactionId)
  }

  /** `findByTicketId`. */
  function PaymentByTicket(payments: seq<Payment>, ticketId: nat): (r: Option<Payment>)
    ensures r.None? <==> forall p :: p in payments ==> p.ticketId != ticketId
    ensures r.Some? ==> r.value in payments && r.value.ticketId == ticketId
  {
    if payments == [] then None
    else if payments[0].ticketId == ticketId then Some(payments[0])
    else PaymentByTicket(payments[1..], ticketId)
  }

  /** Payment ids are distinct and below the generator, transaction ids are unique, a ticket has at most one payment, and tickets' events exist. */
  ghost predicate Wellformed(payments: seq<Payment>, tickets: seq<Ticket>, events: seq<Event>, nextId: nat)
  {
    && (forall i :: 0 <= i < |payments| ==> payments[i].id < nextId)
    && (forall i, j :: 0 <= i < j < |payments| ==> payments[i].id != payments[j].id)
    && (forall i, j :: 0 <= i < j < |payments| ==> payments[i].transactionId != payments[j].transactionId)
    && (forall i, j :: 0 <= i < j < |payments| ==> payments[i].ticketId != payments[j].ticketId)
    && (forall i :: 0 <= i < |tickets| ==> EventById(events, tickets[i].eventId).Some?)
  }

  /**
   * What createPayment does, in the order of its checks: an unknown ticket,
   * a ticket that already has a payment, a free event (the amount column is
   * not nullable) and a transaction id already in use are errors; otherwise
   * a PENDING payment for the event's ticket price, bound to the ticket and
   * its holder.
   */
  function CreatePaymentOutcome(payments: seq<Payment>, tickets: seq<Ticket>, events: seq<Event>, nextId: nat,
                                ticketId: nat, paymentMethod: string, transactionId: string, now: Instant): Result<Payment>
  {
    match TR.IndexOfId(tickets, ticketId)
      case None => Err(ResourceNotFound("Ticket", "id"))
      case Some(i) =>
        if PaymentByTicket(payments, ticketId).Some? then
          Err(IllegalState("Payment already exists for ticket: " + NatToString(ticketId)))
        else match EventById(events, tickets[i].eventId)
          case None => Err(ResourceNotFound("Event", "id"))
          case Some(e) =>
            if e.ticketPrice.None? then Err(ConstraintViolation("amount"))
            else if PaymentByTransaction(payments, transactionId).Some? then Err(ConstraintViolation("transaction_id"))
            else Ok(Payment(nextId, transactionId, e.ticketPrice.value, now, PaymentStatus.PENDING, paymentMethod,
                            tickets[i].userId, ticketId, Some(now), None))
  }

  function CountForTicket(payments: seq<Payment>, ticketId: nat): nat
  {
    Count(payments, (p: Payment) => p.ticketId == ticketId)
  }

  /**
   * A created payment is PENDING, costs the event's ticket price and belongs
   * to the ticket's holder; and it is created only for a known ticket with
   * no payment yet, after which the ticket has exactly one.
   */
  lemma CreatedPaymentIsPendingAndUnique(payments: seq<Payment>, tickets: seq<Ticket>, events: seq<Event>, nextId: nat,
                                         ticketId: nat, paymentMethod: string, transactionId: string, now: Instant)
    requires CreatePaymentOutcome(payments, tickets, events, nextId, ticketId, paymentMethod, transactionId, now).Ok?
    ensures var p := CreatePaymentOutcome(payments, tickets, events, nextId, ticketId, paymentMethod, transactionId, now).value;
            var t := tickets[TR.IndexOfId(tickets, ticketId).value];
            && p.status == PaymentStatus.PENDING && p.ticketId == ticketId && p.userId == t.userId
            && EventById(events, t.eventId).Some? && EventById(events, t.eventId).value.ticketPrice == Some(p.amount)
            && CountForTicket(payments, ticketId) == 0
            && CountForTicket(payments + [p], ticketId) == 1
  {
    var p := CreatePaymentOutcome(payments, tickets, events, nextId, ticketId, paymentMethod, transactionId, now).value;
    CountAppend(payments, p, (q: Payment) => q.ticketId == ticketId);
  }

  /** Once a ticket has a payment, another createPayment for it fails and saves nothing. */
  lemma SecondPaymentRejected(payments: seq<Payment>, tickets: seq<Ticket>, events: seq<Event>, nextId: nat,
                              ticketId: nat, paymentMethod: string, transactionId: string, now: Instant)
    requires TR.IndexOfId(tickets, ticketId).Some?
    requires exists p :: p in payments && p.ticketId == ticketId
    ensures CreatePaymentOutcome(payments, tickets, events, nextId, ticketId, paymentMethod, transactionId, now) ==
            Err(IllegalState("Payment already exists for ticket: " + NatToString(ticketId)))
  {
  }

  lemma WellformedAppend(payments: seq<Payment>, p: Payment, tickets: seq<Ticket>, events: seq<Event>, nextId: nat)
    requires Wellformed(payments, tickets, events, nextId)
    requires p.id == nextId
    requires PaymentByTransaction(payments, p.transactionId).None? && PaymentByTicket(payments, p.ticketId).None?
    ensures Wellformed(payments + [p], tickets, events, nextId + 1)
  {
    var s := payments + [p];
    forall k | 0 <= k < |s|
      ensures s[k].id < nextId + 1
    {
      if k < |payments| {
        assert s[k] == payments[k];
      }
    }
    forall a, b | 0 <= a < b < |s|
      ensures s[a].id != s[b].id && s[a].transactionId != s[b].transactionId && s[a].ticketId != s[b].ticketId
    {
      assert s[a] == payments[a];
      if b < |payments| {
        assert s[b] == payments[b];
      } else {
        assert s[b] == p && payments[a] in payments;
      }
    }
  }

  /** Every tickets' payment count is at most one under the invariant. */
  lemma {:induction false} AtMostOnePaymentPerTicket(payments: seq<Payment>, ticketId: nat)
    requires forall i, j :: 0 <= i < j < |payments| ==> payments[i].ticketId != payments[j].ticketId
    ensures CountForTicket(payments, ticketId) <= 1
    decreases |payments|
  {
    if payments != [] {
      var rest := payments[1..];
      AtMostOnePaymentPerTicket(rest, ticketId);
      if payments[0].ticketId == ticketId {
        forall x | x in rest
          ensures x.ticketId != ticketId
        {
          var k :| 0 <= k < |rest| && rest[k] == x;
          assert payments[k + 1] == x;
        }
      }
    }
  }

  class PaymentService {
    var payments: seq<Payment>
    const tickets: seq<Ticket>
    const events: seq<Event>
    var nextId: nat

    ghost predicate Valid()
      reads this
    {
      Wellformed(payments, tickets, events, nextId)
    }

    constructor (tickets: seq<Ticket>, events: seq<Event>)
      requires forall i :: 0 <= i < |tickets| ==> EventById(events, tickets[i].eventId).Some?
      ensures Valid() && payments == [] && this.tickets == tickets && this.events == events
    {
      this.payments := [];
      this.tickets := tickets;
      this.events := events;
      this.nextId := 1;
    }

    /** `transactionId` is the random UUID the service draws. */
    method CreatePayment(ticketId: nat, paymentMethod: string, transactionId: string, now: Instant) returns (r: Result<Payment>)
      requires Valid()
      modifies this
      ensures Valid()
      ensures r == CreatePaymentOutcome(old(payments), tickets, events, old(nextId),
                                        ticketId, paymentMethod, transactionId, now)
      ensures r.Ok? ==> payments == old(payments) + [r.value] && nextId == old(nextId) + 1
      ensures r.Err? ==> payments == old(payments) && nextId == old(nextId)
    {
      var index := TR.IndexOfId(tickets, ticketId);
      if index.None? {
        return Err(ResourceNotFound("Ticket", "id"));
      }
      var ticket := tickets[index.value];
      if PaymentByTicket(payments, ticketId).Some? {
        return Err(IllegalState("Payment already exists for ticket: " + NatToString(ticketId)));
      }
      var event := EventById(events, ticket.eventId);
      if event.None? {
        return Err(ResourceNotFound("Event", "id"));
      }
      if event.value.ticketPrice.None? {
        return Err(ConstraintViolation("amount"));
      }
      if PaymentByTransaction(payments, transactionId).Some? {
        return Err(ConstraintViolation("transaction_id"));
      }
      var payment := Payment(nextId, transactionId, event.value.ticketPrice.value, now, PaymentStatus.PENDING, paymentMethod,
                             ticket.userId, ticketId, Some(now), None);
      WellformedAppend(payments, payment, tickets, events, nextId);
      payments := payments + [payment];
      nextId := nextId + 1;
      r := Ok(payment);
    }

    function GetPaymentById(id: nat): (r: Result<Payment>)
      reads this
      ensures r.Err? <==> forall p :: p in payments ==> p.id != id
      ensures r.Err? ==> r.error == ResourceNotFound("Payment", "id")
      ensures r.Ok? ==> r.value in payments && r.value.id == id
    {
      match IndexOfPayment(payments, id)
        case None =>
          assert forall p :: p in payments ==> p.id != id by {
            forall p | p in payments ensures p.id != id {
              var k :| 0 <= k < |payments| && payments[k] == p;
            }
          }
          Err(ResourceNotFound("Payment", "id"))
        case Some(i) => Ok(payments[i])
    }

    function GetPaymentByTransactionId(transactionId: string): (r: Result<Payment>)
      reads this
      ensures r.Err? <==> forall p :: p in payments ==> p.transactionId != transactionId
      ensures r.Err? ==> r.error == ResourceNotFound("Payment", "transactionId")
      ensures r.Ok? ==> r.value in payments && r.value.transactionId == transactionId
    {
      match PaymentByTransaction(payments, transactionId)
        case None => Err(ResourceNotFound("Payment", "transactionId"))
        case Some(p) => Ok(p)
    }

    function GetPaymentByTicketId(ticketId: nat): (r: Result<Payment>)
      reads this
      ensures r.Err? <==> forall p :: p in payments ==> p.ticketId != ticketId
      ensures r.Err? ==> r.error == ResourceNotFound("Payment", "ticketId")
      ensures r.Ok? ==> r.value in payments && r.value.ticketId == ticketId
    {
      match PaymentByTicket(payments, ticketId)
        case None => Err(ResourceNotFound("Payment", "ticketId"))
        case Some(p) => Ok(p)
    }

    /** Sets exactly the given status and stamps updatedAt; an unknown id is an error and changes nothing. */
    method UpdatePaymentStatus(id: nat, status: PaymentStatus, now: Instant) returns (r: Result<()>)
      requires Valid()
      modifies this
      ensures Valid() && nextId == old(nextId)
      ensures r.Err? <==> IndexOfPayment(old(payments), id).None?
      ensures r.Err? ==> r.error == ResourceNotFound("Payment", "id") && payments == old(payments)
      ensures r.Ok? ==> var i := IndexOfPayment(old(payments), id).value;
                        payments == old(payments)[i := old(payments)[i].(status := status, updatedAt := Some(now))]
    {
      var index := IndexOfPayment(payments, id);
      if index.None? {
        return Err(ResourceNotFound("Payment", "id"));
      }
      var i := index.value;
      payments := payments[i := payments[i].(status := status, updatedAt := Some(now))];
      r := Ok(());
    }
  }
}
