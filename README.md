# Event management server: a verified Dafny model

This project models the domain rules of a Spring Boot event-management server
and of its two browser scripts. Events move through the statuses PENDING,
APPROVED, REJECTED and CANCELED. Users join and leave events while a ticket
counter moves with them. Tickets are issued up to the location's capacity and
validated once. Users gain and lose the ADMIN role, and the super
administrator (user id 1) cannot lose it. Each user has an in-memory log of at
most 20 notification lines, newest first. A reminder job counts the events it
reached and survives failures of single sends. Payments are limited to one per
ticket. Contact messages are read or unread. Locations are updated and
filtered. The JPQL queries of the event and ticket repositories are modelled as
filters. The controllers' calendar navigation, redirect choice and
registration checks, the reminder e-mail's fallback texts, the notification
dropdown and the page script (countdown, password toggle, form validation)
complete the model.

How the model is built:

- Every repository is an in-memory `seq` of entity records held by the
  service class that uses it. A ghost `Valid()` predicate states that ids are
  distinct and below the id generator, that unique columns are unique, and
  that foreign keys resolve. Every mutating method keeps `Valid()`.
- A service whose methods change stored rows is a `class`. Its methods state
  the whole new state, usually as a pure function of the old state
  (`CreateTicketOutcome`, `DeleteOutcome`, `ChangeRoleOutcome`,
  `UpdateProfileOutcome`, `Deliver`, ...). Lemmas about those functions state
  what the source promises.
- Exceptions are the `Err` side of a `Result`, with the exception's kind and
  message (`ResourceNotFound("Event", "id")`, `IllegalState(...)`, ...). A
  database unique-constraint failure is `ConstraintViolation(column)`.
- The clock is an `Instant` parameter (`now`). Random UUIDs are parameters
  (`freshNumber`, `transactionId`). Formatted dates are opaque strings passed
  in.
- Calls into collaborators (notification service, mail sender, HTTP) are
  recorded, in order, in a `seq` log held by the caller's class.
- The two notification services keep their per-user deques as a
  `map<string, seq<string>>`. `Deliver` folds a sequence of deliveries into
  that map. Each `addNotification` reads the clock itself, so a fan-out
  takes one formatted clock reading per message (`stamps[k]` for the k-th
  delivery), in the order the messages are added.
- The browser scripts are classes whose fields are the parts of the page the
  scripts rewrite. Pure functions (`Tick`, `IconFor`, `BadgeAfter`, ...)
  specify them.

## Model

| member | source | states |
|---|---|---|
| EventServiceImpl.Joined | src/main/java/com/softuni/event/service/impl/EventServiceImpl.java:243-249 | the joining user is added to the attendees; a present ticket counter drops by exactly one and an absent one stays absent; no other field changes |
| EventServiceImpl.Left | src/main/java/com/softuni/event/service/impl/EventServiceImpl.java:278-284 | the leaving user is removed from the attendees; a present ticket counter rises by exactly one and an absent one stays absent; no other field changes |
| EventServiceImpl.JoinAndLeaveKeepSeats | src/main/java/com/softuni/event/service/impl/EventServiceImpl.java:238-249 | for a counted event, a permitted join or leave keeps free tickets plus attendees constant, so the counter moves by exactly one per join or leave |
| EventServiceImpl.JoinThenLeaveRestores | src/main/java/com/softuni/event/service/impl/EventServiceImpl.java:268-284 | after a permitted join, leaving is allowed exactly while the event has not begun, and leaving restores the event exactly (attendees and counter) |
| EventServiceImpl.NoDoubleJoin | src/main/java/com/softuni/event/service/impl/EventServiceImpl.java:238-241 | a user who has joined can never join the same event again |
| EventServiceImpl.Drafted | src/main/java/com/softuni/event/service/impl/EventServiceImpl.java:125-144 | a created event is PENDING, has the given organizer and location, no attendees, the creation time, and every field copied from the form |
| EventServiceImpl.Revised | src/main/java/com/softuni/event/service/impl/EventServiceImpl.java:163-171 | an update copies the form's fields and the location and stamps updatedAt; id, status, organizer, attendees and createdAt are kept |
| EventServiceImpl.EventService.CreateEvent | src/main/java/com/softuni/event/service/impl/EventServiceImpl.java:118-152 | a missing organizer is reported before a missing location; an error saves nothing; success appends the drafted event under the next id and records one notifyEventCreated call |
| EventServiceImpl.EventService.UpdateEvent | src/main/java/com/softuni/event/service/impl/EventServiceImpl.java:156-180 | a missing event is reported before a missing location; on success exactly that event is replaced by its revision; nothing is notified |
| EventServiceImpl.EventService.DeleteEvent | src/main/java/com/softuni/event/service/impl/EventServiceImpl.java:184-196 | deleting never removes: the event stays with status CANCELED and its attendees are notified; an unknown id is ResourceNotFound and changes nothing |
| EventServiceImpl.EventService.ChangeEventStatus | src/main/java/com/softuni/event/service/impl/EventServiceImpl.java:200-211 | exactly the requested status is set on that event and a status-change notice is recorded; an unknown id changes nothing |
| EventServiceImpl.EventService.JoinEvent | src/main/java/com/softuni/event/service/impl/EventServiceImpl.java:215-257 | a missing event is reported before a missing user; the answer is true exactly when the event is APPROVED, the deadline has not passed, tickets remain (or are not counted) and the user does not attend; only then is the event replaced by its joined form and one joined notice recorded |
| EventServiceImpl.EventService.LeaveEvent | src/main/java/com/softuni/event/service/impl/EventServiceImpl.java:261-289 | the answer is true exactly when the user attends and the event has not begun; only then is the event replaced by its left form; leaving notifies nobody |
| TicketServiceImpl.CreateTicketChecksEventFirst | src/main/java/com/softuni/event/service/impl/TicketServiceImpl.java:44-48 | an unknown event is reported before the user is looked up; a known event with an unknown user is reported as a missing user |
| TicketServiceImpl.CreateTicketRespectsCapacity | src/main/java/com/softuni/event/service/impl/TicketServiceImpl.java:50-57 | with a capacity set, a count at or above it is refused with IllegalStateException, and an issued ticket never takes the event's count above the capacity |
| TicketServiceImpl.CreatedTicketIsUnused | src/main/java/com/softuni/event/service/impl/TicketServiceImpl.java:59-65 | an issued ticket is unused, carries the fresh number and the issue time, belongs to the requested event and to the requested user, and its number was free |
| TicketServiceImpl.TicketService.CreateTicket | src/main/java/com/softuni/event/service/impl/TicketServiceImpl.java:43-70 | the result is the one CreateTicketOutcome prescribes; an error saves nothing; success appends exactly the new ticket under the next id |
| TicketServiceImpl.TicketService.GetTicketById | src/main/java/com/softuni/event/service/impl/TicketServiceImpl.java:73-78 | a stored ticket with that id, or ResourceNotFound exactly when none has it |
| TicketServiceImpl.TicketService.GetTicketByNumber | src/main/java/com/softuni/event/service/impl/TicketServiceImpl.java:81-86 | a stored ticket with that number, or ResourceNotFound exactly when none has it |
| TicketServiceImpl.TicketService.GetTicketsByEvent | src/main/java/com/softuni/event/service/impl/TicketServiceImpl.java:89-93 | exactly the stored tickets of that event; each row as often as it is stored, in table order |
| TicketServiceImpl.TicketService.GetTicketsByUser | src/main/java/com/softuni/event/service/impl/TicketServiceImpl.java:96-103 | an unknown username is an error; otherwise exactly the stored tickets of that user; each row as often as it is stored, in table order |
| TicketServiceImpl.TicketService.UseTicket | src/main/java/com/softuni/event/service/impl/TicketServiceImpl.java:107-127 | an unknown number is an error; the answer is true exactly when the ticket is unused and its event has started; only then is it marked used, after which it is never usable again |
| TicketServiceImpl.DeleteOutcome | src/main/java/com/softuni/event/service/impl/TicketServiceImpl.java:131-136 | an unknown id is ResourceNotFound; otherwise the table loses exactly one ticket |
| TicketServiceImpl.DeleteRemovesExactlyThatTicket | src/main/java/com/softuni/event/service/impl/TicketServiceImpl.java:131-136 | after a delete the table holds every other ticket and no ticket with that id, and stays well formed |
| TicketServiceImpl.TicketService.DeleteTicket | src/main/java/com/softuni/event/service/impl/TicketServiceImpl.java:131-136 | the table after the call is the one DeleteOutcome prescribes; an unknown id deletes nothing |
| TicketRepository.FindByEventId | src/main/java/com/softuni/event/repository/TicketRepository.java:13 | exactly the tickets of that event; each row as often as it is stored, in table order |
| TicketRepository.FindByUserId | src/main/java/com/softuni/event/repository/TicketRepository.java:14 | exactly the tickets of that user; each row as often as it is stored, in table order |
| TicketRepository.FindByTicketNumber | src/main/java/com/softuni/event/repository/TicketRepository.java:15 | a stored ticket with that number, and none exactly when no ticket has it |
| TicketRepository.FindByTicketNumberIsUnique | src/main/java/com/softuni/event/repository/TicketRepository.java:15 | with unique numbers the query returns the one ticket that has the number |
| TicketRepository.CountTicketsByEventId | src/main/java/com/softuni/event/repository/TicketRepository.java:17-18 | the count is the number of the event's tickets, and 0 exactly when the event has none |
| TicketRepository.FindByEventIdAndUsed | src/main/java/com/softuni/event/repository/TicketRepository.java:20-21 | exactly the tickets matching both the event and the used flag; each row as often as it is stored, in table order |
| TicketRepository.UsedAndUnusedPartitionEventTickets | src/main/java/com/softuni/event/repository/TicketRepository.java:17-21 | an event's used and unused tickets add up to its ticket count |
| TicketRepository.CountAfterAppend | src/main/java/com/softuni/event/repository/TicketRepository.java:17-18 | saving one ticket raises its own event's count by one and no other event's count |
| TicketPersistence.OrDefault | src/main/java/com/softuni/event/model/entity/TicketEntity.java:46-51 | a set value is kept and a missing one takes the default |
| TicketPersistence.OrDefaultIdempotent | src/main/java/com/softuni/event/model/entity/TicketEntity.java:44-52 | defaulting a second time changes nothing |
| TicketPersistence.TicketEntity.constructor | src/main/java/com/softuni/event/model/entity/TicketEntity.java:18-28 | a new entity has no number, no issue date and is unused |
| TicketPersistence.TicketEntity.PrePersist | src/main/java/com/softuni/event/model/entity/TicketEntity.java:44-52 | a missing number gets the fresh UUID and a missing issue date gets now; set values and every other field are kept |
| ContactServiceImpl.AllNewestFirst | src/main/java/com/softuni/event/repository/ContactMessageRepository.java:12 | every stored message appears, as often as stored, with creation times never increasing along the list |
| ContactServiceImpl.UnreadNewestFirst | src/main/java/com/softuni/event/repository/ContactMessageRepository.java:15 | a message is listed exactly when it is stored and unread, newest first; each row as often as it is stored |
| ContactServiceImpl.UnreadCount | src/main/java/com/softuni/event/repository/ContactMessageRepository.java:18 | the number of unread messages, and 0 exactly when every message is read |
| ContactServiceImpl.UnreadCountIsListingLength | src/main/java/com/softuni/event/service/impl/ContactServiceImpl.java:41-46 | the unread count equals the length of the unread listing |
| ContactServiceImpl.MarkingLowersUnreadByOne | src/main/java/com/softuni/event/service/impl/ContactServiceImpl.java:57-63 | marking one message read lowers the unread count by one if it was unread and leaves it unchanged otherwise |
| ContactServiceImpl.IndexOfMessage | src/main/java/com/softuni/event/service/impl/ContactServiceImpl.java:50 | the position of a message with that id, and none exactly when no message has it |
| ContactServiceImpl.Deleted | src/main/java/com/softuni/event/service/impl/ContactServiceImpl.java:67-69 | an unknown id leaves the table as it was; a known one shortens it by exactly one |
| ContactServiceImpl.DeleteRemovesExactlyThatMessage | src/main/java/com/softuni/event/service/impl/ContactServiceImpl.java:67-69 | after a delete the table holds every other message and only those, with ids still distinct |
| ContactServiceImpl.WellformedRemove | src/main/java/com/softuni/event/service/impl/ContactServiceImpl.java:67-69 | removing one row keeps ids distinct and below the id generator |
| ContactServiceImpl.ContactService.constructor | src/main/java/com/softuni/event/repository/ContactMessageRepository.java:10 | the table starts empty |
| ContactServiceImpl.ContactService.SaveContactMessage | src/main/java/com/softuni/event/service/impl/ContactServiceImpl.java:27-30 | a message over the 1000-character column fails and saves nothing; otherwise exactly one unread message stamped now is appended under the next id |
| ContactServiceImpl.ContactService.GetAllMessages | src/main/java/com/softuni/event/service/impl/ContactServiceImpl.java:33-38 | every stored message, newest first; each row as often as it is stored |
| ContactServiceImpl.ContactService.GetUnreadMessages | src/main/java/com/softuni/event/service/impl/ContactServiceImpl.java:41-46 | exactly the unread messages, newest first; each row as often as it is stored |
| ContactServiceImpl.ContactService.GetMessageById | src/main/java/com/softuni/event/service/impl/ContactServiceImpl.java:49-53 | the message with that id, or IllegalArgumentException "Message not found with id: <id>" exactly when none has it |
| ContactServiceImpl.ContactService.MarkAsRead | src/main/java/com/softuni/event/service/impl/ContactServiceImpl.java:57-63 | an unknown id fails with the not-found message and changes nothing; otherwise only that message's read flag is set |
| ContactServiceImpl.ContactService.DeleteMessage | src/main/java/com/softuni/event/service/impl/ContactServiceImpl.java:67-69 | the table becomes the one Deleted prescribes; an unknown id is silently ignored |
| ContactServiceImpl.ContactService.CountUnreadMessages | src/main/java/com/softuni/event/service/impl/ContactServiceImpl.java:72-74 | the count equals the length of the unread listing |
| LocationServiceImpl.LocationsByCity | src/main/java/com/softuni/event/repository/LocationRepository.java:11 | a location is listed exactly when it is stored and its city equals the argument; one without a city never matches; each row as often as it is stored, in table order |
| LocationServiceImpl.LocationsByCapacity | src/main/java/com/softuni/event/repository/LocationRepository.java:13 | a location is listed exactly when it is stored and has a capacity at least the argument; each row as often as it is stored, in table order |
| LocationServiceImpl.LocationsByName | src/main/java/com/softuni/event/repository/LocationRepository.java:14 | a location is listed exactly when the keyword occurs in its name; each row as often as it is stored, in table order |
| LocationServiceImpl.CapacityFilterIsMonotone | src/main/java/com/softuni/event/repository/LocationRepository.java:13 | raising the minimum capacity never adds a location to the result |
| LocationServiceImpl.EmptyKeywordMatchesAll | src/main/java/com/softuni/event/service/impl/LocationServiceImpl.java:79-83 | searching with the empty keyword lists every location |
| LocationServiceImpl.IndexOfLocation | src/main/java/com/softuni/event/service/impl/LocationServiceImpl.java:36-37 | the position of a location with that id, and none exactly when no location has it |
| LocationServiceImpl.Updated | src/main/java/com/softuni/event/service/impl/LocationServiceImpl.java:59-64 | name, address, city, country and capacity come from the form and updatedAt is now; id, zip code, coordinates, description and createdAt are kept |
| LocationServiceImpl.UpdateIsIdempotent | src/main/java/com/softuni/event/service/impl/LocationServiceImpl.java:55-67 | applying the same update twice gives the same location as applying it once |
| LocationServiceImpl.LocationService.constructor | src/main/java/com/softuni/event/repository/LocationRepository.java:10 | the table starts empty |
| LocationServiceImpl.LocationService.GetLocationById | src/main/java/com/softuni/event/service/impl/LocationServiceImpl.java:35-40 | the location with that id, or ResourceNotFound exactly when none has it |
| LocationServiceImpl.Mapped | src/main/java/com/softuni/event/service/impl/LocationServiceImpl.java:45-46 | the saved entity carries the form's name, address, city, country and capacity, createdAt now, and no zip code, coordinates, description or updatedAt |
| LocationServiceImpl.MergeClearsUnmappedColumns | src/main/java/com/softuni/event/service/impl/LocationServiceImpl.java:45-48 | saving a form with a stored location's id writes the same five fields updateLocation writes but empties the columns the form lacks, resets createdAt and clears updatedAt; the row survives unchanged only when those were already so |
| LocationServiceImpl.LocationService.CreateLocation | src/main/java/com/softuni/event/service/impl/LocationServiceImpl.java:44-51 | a form without an id, or with an id no location has, appends one location under the next id; a form carrying a stored location's id replaces that row in place, keeping its position and id, and the id generator does not move; either way the saved entity is Mapped from the form and the table stays well formed |
| LocationServiceImpl.LocationService.UpdateLocation | src/main/java/com/softuni/event/service/impl/LocationServiceImpl.java:55-67 | an unknown id fails and saves nothing; otherwise only that location is replaced by its update |
| LocationServiceImpl.LocationService.DeleteLocation | src/main/java/com/softuni/event/service/impl/LocationServiceImpl.java:71-76 | an unknown id fails with ResourceNotFound; a location an event still uses fails on the foreign key; otherwise exactly that row is removed |
| LocationServiceImpl.LocationService.GetLocationsByCity | src/main/java/com/softuni/event/service/impl/LocationServiceImpl.java:86-90 | exactly the stored locations in that city; each row as often as it is stored, in table order |
| LocationServiceImpl.LocationService.GetLocationsByCapacity | src/main/java/com/softuni/event/service/impl/LocationServiceImpl.java:93-97 | exactly the stored locations with at least that capacity; each row as often as it is stored, in table order |
| LocationServiceImpl.LocationService.SearchLocations | src/main/java/com/softuni/event/service/impl/LocationServiceImpl.java:79-83 | exactly the stored locations whose name contains the keyword; each row as often as it is stored, in table order |
| LocationServiceImpl.DeleteRemovesExactlyThatLocation | src/main/java/com/softuni/event/service/impl/LocationServiceImpl.java:71-76 | with distinct ids, removing the found row keeps every other location and only those |
| PaymentServiceImpl.IndexOfPayment | src/main/java/com/softuni/event/service/impl/PaymentServiceImpl.java:63-64 | the position of a payment with that id, and none exactly when no payment has it |
| PaymentServiceImpl.PaymentByTransaction | src/main/java/com/softuni/event/repository/PaymentRepository.java:17 | a stored payment with that transaction id, and none exactly when no payment has it |
| PaymentServiceImpl.PaymentByTicket | src/main/java/com/softuni/event/repository/PaymentRepository.java:18 | a stored payment for that ticket, and none exactly when the ticket has no payment |
| PaymentServiceImpl.CreatedPaymentIsPendingAndUnique | src/main/java/com/softuni/event/service/impl/PaymentServiceImpl.java:37-59 | a created payment is PENDING, costs the event's ticket price, belongs to the ticket and its holder, and is made only for a ticket without a payment, which then has exactly one |
| PaymentServiceImpl.SecondPaymentRejected | src/main/java/com/softuni/event/service/impl/PaymentServiceImpl.java:41-44 | for a known ticket that already has a payment, createPayment fails with IllegalStateException "Payment already exists for ticket: <id>" |
| PaymentServiceImpl.WellformedAppend | src/main/java/com/softuni/event/model/entity/PaymentEntity.java:19-40 | appending a payment with the next id, an unused transaction id and a ticket without a payment keeps ids, transaction ids and tickets unique |
| PaymentServiceImpl.AtMostOnePaymentPerTicket | src/main/java/com/softuni/event/model/entity/PaymentEntity.java:38-40 | with ticket columns distinct, no ticket has more than one payment |
| PaymentServiceImpl.PaymentService.constructor | src/main/java/com/softuni/event/repository/PaymentRepository.java:14 | the payment table starts empty over the given tickets and events |
| PaymentServiceImpl.PaymentService.CreatePayment | src/main/java/com/softuni/event/service/impl/PaymentServiceImpl.java:37-59 | the result is the one CreatePaymentOutcome prescribes (unknown ticket, existing payment, free event, clashing UUID, or the new payment); an error saves nothing; success appends exactly the new payment |
| PaymentServiceImpl.PaymentService.GetPaymentById | src/main/java/com/softuni/event/service/impl/PaymentServiceImpl.java:62-67 | the payment with that id, or ResourceNotFound exactly when none has it |
| PaymentServiceImpl.PaymentService.GetPaymentByTransactionId | src/main/java/com/softuni/event/service/impl/PaymentServiceImpl.java:70-75 | the payment with that transaction id, or ResourceNotFound exactly when none has it |
| PaymentServiceImpl.PaymentService.GetPaymentByTicketId | src/main/java/com/softuni/event/service/impl/PaymentServiceImpl.java:78-83 | the payment for that ticket, or ResourceNotFound exactly when none has it |
| PaymentServiceImpl.PaymentService.UpdatePaymentStatus | src/main/java/com/softuni/event/service/impl/PaymentServiceImpl.java:96-104 | an unknown id fails and changes nothing; otherwise only that payment gets the new status and updatedAt now |
| UserServiceImpl.HasAdminRole | src/main/java/com/softuni/event/service/impl/UserServiceImpl.java:194-199 | true exactly when some role row of the user is ADMIN |
| UserServiceImpl.AdminRowIndex | src/main/java/com/softuni/event/service/impl/UserServiceImpl.java:161-163 | the position of an ADMIN row of the user, none exactly when the user has no ADMIN row |
| UserServiceImpl.FirstUserRowIndex | src/main/java/com/softuni/event/service/impl/UserServiceImpl.java:62-72 | the first USER row of the role table, none exactly when the table has no USER row |
| UserServiceImpl.RolesOf | src/main/java/com/softuni/event/service/impl/UserServiceImpl.java:161 | a row is listed exactly when it is in the table and belongs to the user |
| UserServiceImpl.ChangeRoleCases | src/main/java/com/softuni/event/service/impl/UserServiceImpl.java:151-175 | an unknown user fails with "User not found" before the role name is parsed; an unknown name fails as Enum.valueOf does; asking USER fails exactly for the super administrator (id 1) while they hold ADMIN |
| UserServiceImpl.ChangeRoleSetsAdmin | src/main/java/com/softuni/event/service/impl/UserServiceImpl.java:159-189 | given at most one ADMIN row, a successful change leaves the user an admin exactly when ADMIN was requested |
| UserServiceImpl.GrantAddsExactlyOneAdmin | src/main/java/com/softuni/event/service/impl/UserServiceImpl.java:175-188 | requesting ADMIN leaves the user an admin, adds exactly one ADMIN row for a non-admin, changes nothing for an admin, and a second request changes nothing |
| UserServiceImpl.RevokeRemovesOneAdmin | src/main/java/com/softuni/event/service/impl/UserServiceImpl.java:159-174 | requesting USER removes exactly one ADMIN row of an admin and changes nothing for a non-admin |
| UserServiceImpl.RevokeKeepsOtherUsersRoles | src/main/java/com/softuni/event/service/impl/UserServiceImpl.java:171-173 | requesting USER for one user leaves every other user's rows unchanged |
| UserServiceImpl.RevokeOfSoleAdminRow | src/main/java/com/softuni/event/service/impl/UserServiceImpl.java:171-173 | a user with a single ADMIN row is no admin afterwards |
| UserServiceImpl.GetAllAdmins | src/main/java/com/softuni/event/service/impl/UserServiceImpl.java:209-215 | a user is listed exactly when they hold an ADMIN row; each user row as often as it is stored, in repository order |
| UserServiceImpl.ProfileOf | src/main/java/com/softuni/event/service/impl/UserServiceImpl.java:91-92 | the profile carries the user's id, username and email, and its admin flag is true exactly when the user holds an ADMIN row |
| UserServiceImpl.ProfilesOf | src/main/java/com/softuni/event/service/impl/UserServiceImpl.java:137-147 | one profile per user, in repository order |
| UserServiceImpl.WellformedAddUser | src/main/java/com/softuni/event/service/impl/UserServiceImpl.java:59 | saving a user with the next id and a free username and email keeps ids, usernames and emails unique |
| UserServiceImpl.WellformedUpdateUser | src/main/java/com/softuni/event/service/impl/UserServiceImpl.java:123 | rewriting a user whose new username and email clash with no other row keeps the table well formed |
| UserServiceImpl.UpdateProfileFailsOnlyOnClash | src/main/java/com/softuni/event/service/impl/UserServiceImpl.java:111-124 | a profile update fails exactly when the id is unknown or another user already has the username or the email |
| UserServiceImpl.UpdateProfileChangesOnlyThatUser | src/main/java/com/softuni/event/service/impl/UserServiceImpl.java:116-123 | a successful update rewrites exactly the form's user with the form's fields and the update time, and keeps every other row |
| UserServiceImpl.WellformedAddRole | src/main/java/com/softuni/event/service/impl/UserServiceImpl.java:185 | adding a role row with the next id keeps row ids distinct |
| UserServiceImpl.WellformedRepointRole | src/main/java/com/softuni/event/service/impl/UserServiceImpl.java:75-79 | moving a role row to another user keeps the tables well formed |
| UserServiceImpl.WellformedRemoveRole | src/main/java/com/softuni/event/service/impl/UserServiceImpl.java:173 | deleting a role row keeps the tables well formed |
| UserServiceImpl.UserService.constructor | src/main/java/com/softuni/event/service/impl/UserServiceImpl.java:27-36 | the user and role tables start empty |
| UserServiceImpl.UserService.IsUsernameExists | src/main/java/com/softuni/event/service/impl/UserServiceImpl.java:127-129 | true exactly when a stored user has that username |
| UserServiceImpl.UserService.IsEmailExists | src/main/java/com/softuni/event/service/impl/UserServiceImpl.java:132-134 | true exactly when a stored user has that email |
| UserServiceImpl.UserService.GetUserByUsername | src/main/java/com/softuni/event/service/impl/UserServiceImpl.java:202-206 | the user with that username, or "User not found" exactly when none has it |
| UserServiceImpl.UserService.GetUserProfile | src/main/java/com/softuni/event/service/impl/UserServiceImpl.java:86-95 | the profile of the user with that username with the admin flag set from the roles, or "User not found" exactly when none has it |
| UserServiceImpl.UserService.GetUserById | src/main/java/com/softuni/event/service/impl/UserServiceImpl.java:98-107 | the profile of the user with that id with the admin flag set from the roles, or "User not found" exactly when none has it |
| UserServiceImpl.UserService.RegisterUser | src/main/java/com/softuni/event/service/impl/UserServiceImpl.java:40-83 | a taken username or email fails on the unique column and saves nothing; otherwise the user is appended and the first USER row is re-pointed at them, or a new USER row is made when none exists, so the user always ends with a USER row |
| UserServiceImpl.UserService.UpdateUserProfile | src/main/java/com/softuni/event/service/impl/UserServiceImpl.java:111-124 | the result and the user table are the ones UpdateProfileOutcome prescribes; roles never change |
| UserServiceImpl.UserService.ChangeUserRole | src/main/java/com/softuni/event/service/impl/UserServiceImpl.java:151-192 | the result and the role table are the ones ChangeRoleOutcome prescribes; users never change and a row id is used only when a row is added |
| UserServiceImpl.ReusedUserRowLeavesPreviousOwner | src/main/java/com/softuni/event/service/impl/UserServiceImpl.java:69-75 | when registration re-points another user's USER row, that user holds one USER row fewer |
| AppUserDetailsService.Authority | src/main/java/com/softuni/event/service/impl/AppUserDetailsService.java:48-50 | the authority of a role is "ROLE_" followed by the role's name |
| AppUserDetailsService.Authorities | src/main/java/com/softuni/event/service/impl/AppUserDetailsService.java:36-39 | an authority is present exactly when some given row maps to it; no rows give no authority |
| AppUserDetailsService.LoadUserByUsername | src/main/java/com/softuni/event/service/impl/AppUserDetailsService.java:29-45 | an unknown name fails with UsernameNotFoundException "User with username <u> not found"; an empty stored name is refused by Spring's User; otherwise username and password are copied unchanged and the authorities are exactly those of the user's role rows |
| AppUserDetailsService.AuthorityIsAdmin | src/main/java/com/softuni/event/service/impl/AppUserDetailsService.java:48-50 | ROLE_ADMIN is the authority of ADMIN and of no other role |
| AppUserDetailsService.AdminRowGivesAdminAuthority | src/main/java/com/softuni/event/service/impl/AppUserDetailsService.java:36-45 | the principal has ROLE_ADMIN exactly when the user holds an ADMIN row, and a user without rows has no authority |
| UserController.Register | src/main/java/com/softuni/event/controller/UserController.java:49-77 | binding errors, then a password mismatch, then a taken username, then a taken e-mail return the form with that field rejected; the redirect to /users/login?registered=true happens exactly when all checks pass |
| UserController.UsernameCheckedBeforeEmail | src/main/java/com/softuni/event/controller/UserController.java:62-72 | with both username and e-mail taken, the username is the field rejected |
| UserController.AdminUpdateUser | src/main/java/com/softuni/event/controller/UserController.java:169-188 | with binding errors the form (carrying the path id) is shown again and the table is unchanged; otherwise updateUserProfile runs on the form with the path id forced on it, the redirect happens exactly when that update succeeds and leaves its resulting table, and a failed update shows the form with its error and leaves the table unchanged |
| UserController.AdminUpdateTargetsPathUser | src/main/java/com/softuni/event/controller/UserController.java:174-183 | the id inside the submitted form never matters; on the redirect exactly the user with the path id takes the form's username, e-mail, names and phone, every other row is unchanged and the table stays well formed |
| EventController.ClampMonth | src/main/java/com/softuni/event/controller/EventController.java:281-289 | the month shown is always in 1..12: the requested month when it is in range, otherwise the current month |
| EventController.MonthIndex | src/main/java/com/softuni/event/controller/EventController.java:308-311 | the month count 12·year + month that the navigation steps through |
| EventController.NavigationRoundTrip | src/main/java/com/softuni/event/controller/EventController.java:308-311 | both links give months in 1..12, step exactly one month back or forward, and undo each other |
| EventController.CreateEventView | src/main/java/com/softuni/event/controller/EventController.java:69-111 | an unauthenticated request goes to /users/login before any check; binding errors or a deadline after the event date show the form; the browser goes to the new event's page only when createEvent succeeded |
| EventController.UpdateEventView | src/main/java/com/softuni/event/controller/EventController.java:238-273 | binding errors or a deadline after the event date show the form; the redirect to the event's page happens exactly when the update succeeds |
| EventController.RedirectAfter | src/main/java/com/softuni/event/controller/EventController.java:159-163 | a non-empty redirectUrl is followed; a missing or empty one gives the handler's default |
| EventController.RedirectUrlWins | src/main/java/com/softuni/event/controller/EventController.java:136-206 | approve, reject, cancel and delete all follow a caller's non-empty redirectUrl; otherwise approve and reject go to the event's page and cancel and delete to /events/my-events |
| EventController.CertificateGuard | src/main/java/com/softuni/event/controller/EventController.java:316-324 | a non-APPROVED event sends the browser back to its page with the flash error and no remote call; an APPROVED one goes on |
| EventRepository.FindUpcomingEvents | src/main/java/com/softuni/event/repository/EventRepository.java:18-19 | an event is listed exactly when it is stored, dated strictly after now and has the status, in ascending date order; each row as often as it is stored |
| EventRepository.FindPastEvents | src/main/java/com/softuni/event/repository/EventRepository.java:21-22 | an event is listed exactly when it is stored, dated strictly before now and has the status, in descending date order; each row as often as it is stored |
| EventRepository.FindEventsBetweenDates | src/main/java/com/softuni/event/repository/EventRepository.java:24-25 | an event is listed exactly when its date lies within both bounds inclusive and it has the status; each row as often as it is stored, in table order |
| EventRepository.SearchByTitleOrDescription | src/main/java/com/softuni/event/repository/EventRepository.java:27-28 | an event is listed exactly when it is APPROVED and the lower-cased title or description matches the lower-cased pattern %keyword%; each row as often as it is stored, in table order |
| EventRepository.KeywordPatternIsSubstring | src/main/java/com/softuni/event/repository/EventRepository.java:27-28 | for a keyword without wildcards the pattern %keyword% matches exactly the strings that contain the keyword |
| EventRepository.FindOverlappingEvents | src/main/java/com/softuni/event/repository/EventRepository.java:34-42 | an event is listed exactly when it is at the location, has a listed status, is not the excluded id (none excludes nothing), and starts within the window or less than three hours before its start; the excluded event never appears; each row as often as it is stored, in table order |
| EventRepository.OverlapWindow | src/main/java/com/softuni/event/repository/EventRepository.java:36 | an event that began before the window's start overlaps exactly when it began less than three hours earlier |
| EventRepository.FindByIdWithAssociations | src/main/java/com/softuni/event/repository/EventRepository.java:47-48 | the event with that id, and null exactly when no event has it |
| NotificationLog.Pushed | src/main/java/com/softuni/event/service/impl/NotificationServiceImpl.java:136-149 | the new entry comes first, followed by the older entries, and the deque grows by one until it holds 20 entries and then keeps 20, dropping the oldest |
| NotificationLog.DeliverSnoc | src/main/java/com/softuni/event/service/impl/NotificationServiceImpl.java:136-149 | delivering one more message, at one more clock reading, is one more push on the logs delivered so far |
| NotificationLog.DeliverConcat | src/main/java/com/softuni/event/service/impl/NotificationServiceImpl.java:55-70 | delivering two batches in turn, each on its own clock readings, is delivering their concatenation on the concatenated readings |
| NotificationLog.DeliverCons | src/main/java/com/softuni/event/service/impl/NotificationServiceImpl.java:74-90 | telling the organizer first and then the others is one push at the first reading followed by the others on the readings after it |
| NotificationLog.ReceivedSnoc | src/main/java/com/softuni/event/service/impl/NotificationServiceImpl.java:136-149 | one more delivery adds one to its recipient's count and none to anyone else's |
| NotificationLog.ToAll | src/main/java/com/softuni/event/service/impl/NotificationServiceImpl.java:83-85 | one delivery per listed user, in order, each carrying the message |
| NotificationLog.DeliverEffect | src/main/java/com/softuni/event/service/impl/NotificationServiceImpl.java:136-149 | deliveries keep every log within 20 entries, create a log only for a recipient, leave non-recipients' logs unchanged, and give each user min(old length + messages to them, 20) entries |
| NotificationLog.DeliverReach | src/main/java/com/softuni/event/service/impl/NotificationServiceImpl.java:136-149 | after deliveries a user has a log exactly when they had one or received a message, and a user who received nothing keeps their log unchanged |
| NotificationLog.DeliverLength | src/main/java/com/softuni/event/service/impl/NotificationServiceImpl.java:143-148 | a user's log length after deliveries is min(old length + messages addressed to them, 20) |
| NotificationLog.PushLength | src/main/java/com/softuni/event/service/impl/NotificationServiceImpl.java:143-148 | one push adds one entry to its recipient's log, up to 20, and none to anyone else's |
| NotificationLog.DeliverStaysBounded | src/main/java/com/softuni/event/service/impl/NotificationServiceImpl.java:146-148 | no delivery sequence lets a log grow past 20 entries |
| NotificationLog.DeliverNewest | src/main/java/com/softuni/event/service/impl/NotificationServiceImpl.java:141-143 | after deliveries the newest entry of the last recipient is "<timestamp> - <message>" of the last message, stamped with the last clock reading |
| NotificationLog.ToAllReachesEachOnce | src/main/java/com/softuni/event/service/impl/NotificationServiceImpl.java:83-85 | with no repeated users, a message to all of them reaches each listed user exactly once and nobody else |
| NotificationLog.StatusChangeDeliveries | src/main/java/com/softuni/event/service/impl/NotificationServiceImpl.java:74-90 | the organizer is told first, then each attendee only for APPROVED or CANCELED |
| NotificationLog.StatusChangeRecipients | src/main/java/com/softuni/event/service/impl/NotificationServiceImpl.java:79-86 | the organizer is always told; an attendee other than the organizer is told exactly when the status is APPROVED or CANCELED; nobody else is told |
| NotificationLog.CreatedDeliveries | src/main/java/com/softuni/event/service/impl/NotificationServiceImpl.java:93-99 | exactly one message, to the organizer, saying the event is pending approval |
| NotificationLog.CancelledDeliveries | src/main/java/com/softuni/event/service/impl/NotificationServiceImpl.java:102-112 | one message per attendee |
| NotificationLog.CancelledRecipients | src/main/java/com/softuni/event/service/impl/NotificationServiceImpl.java:106-109 | each attendee hears once of the cancellation, and an organizer who does not attend hears nothing |
| NotificationLog.JoinedDeliveries | src/main/java/com/softuni/event/service/impl/NotificationServiceImpl.java:115-128 | two messages: the organizer's first, then the joining user's |
| NotificationLog.JoinedRecipients | src/main/java/com/softuni/event/service/impl/NotificationServiceImpl.java:115-124 | the organizer and the joining user get one entry each, two when they are the same user |
| NotificationLog.UpcomingDeliveries | src/main/java/com/softuni/event/service/impl/NotificationServiceImpl.java:56-67 | for one event, the organizer's message and then one per attendee |
| NotificationLog.AllUpcomingDeliveries | src/main/java/com/softuni/event/service/impl/NotificationServiceImpl.java:55-70 | at least one message per upcoming event, event by event |
| NotificationLog.ToAllStep | src/main/java/com/softuni/event/service/impl/NotificationServiceImpl.java:83-85 | reaching one more attendee, at the next clock reading, is one more push |
| NotificationLog.AllUpcomingPrefix | src/main/java/com/softuni/event/service/impl/NotificationServiceImpl.java:55-70 | the reminders for the first k upcoming events are exactly the beginning of the reminders for all of them |
| NotificationLog.AllUpcomingSnoc | src/main/java/com/softuni/event/service/impl/NotificationServiceImpl.java:55-70 | the reminders for one more event follow those for the events before it |
| NotificationLog.DeliverSplit | src/main/java/com/softuni/event/service/impl/NotificationServiceImpl.java:136-149 | delivering two batches on consecutive clock readings is delivering the first and then the second on the readings that follow |
| NotificationLog.UpcomingStep | src/main/java/com/softuni/event/service/impl/NotificationServiceImpl.java:55-70 | delivering for one more upcoming event, on the next clock readings, extends what was delivered for those before it; the readings used so far never exceed those supplied |
| NotificationLog.EventsTomorrow | src/main/java/com/softuni/event/service/impl/NotificationServiceImpl.java:49-53 | an event is picked exactly when it is APPROVED and dated within tomorrow's window, both ends inclusive; each row as often as it is stored, in table order |
| NotificationServiceImpl.StatusNotificationWording | src/main/java/com/softuni/event/service/impl/NotificationServiceImpl.java:163-168 | approval, rejection and cancellation have three different wordings, and every other type gets the generic update wording |
| NotificationServiceImpl.PendingRows | src/main/java/com/softuni/event/service/impl/NotificationServiceImpl.java:174-182 | one unread NEW_EVENT_PENDING row per admin, in the admins' order, each with the waiting-for-approval message and the link /users/admin/users |
| NotificationServiceImpl.NewestFirst | src/main/java/com/softuni/event/repository/NotificationRepository.java:13-15 | the rows a query selected, each as often as selected, with creation times never increasing along the list |
| NotificationServiceImpl.NotificationsFor | src/main/java/com/softuni/event/service/impl/NotificationServiceImpl.java:185-187 | a notification is listed exactly when it is stored for that user, newest first; each row as often as it is stored |
| NotificationServiceImpl.UnreadFor | src/main/java/com/softuni/event/service/impl/NotificationServiceImpl.java:190-192 | a notification is listed exactly when it is stored for that user and unread, newest first; each row as often as it is stored |
| NotificationServiceImpl.UnreadCount | src/main/java/com/softuni/event/service/impl/NotificationServiceImpl.java:195-197 | the count equals the length of the unread listing, and is 0 exactly when the user has no unread notification |
| NotificationServiceImpl.AllMarkedRead | src/main/java/com/softuni/event/service/impl/NotificationServiceImpl.java:208-212 | the same table with each unread notification of the user set read and every other row unchanged |
| NotificationServiceImpl.MarkAllLeavesNothingUnread | src/main/java/com/softuni/event/service/impl/NotificationServiceImpl.java:208-212 | after markAllAsRead the user has no unread notification and every other user's unread count is unchanged |
| NotificationServiceImpl.MarkOneLowersUnread | src/main/java/com/softuni/event/service/impl/NotificationServiceImpl.java:200-205 | marking one notification read lowers its owner's unread count by one when it was unread, and changes no other count |
| NotificationServiceImpl.DeleteLowersUnread | src/main/java/com/softuni/event/service/impl/NotificationServiceImpl.java:215-217 | deleting a notification lowers its owner's unread count by one when it was unread, and changes no other count |
| NotificationServiceImpl.IndexOfId | src/main/java/com/softuni/event/service/impl/NotificationServiceImpl.java:201 | the position of the notification with that id, and none exactly when no row has it |
| NotificationServiceImpl.NotificationService.constructor | src/main/java/com/softuni/event/service/impl/NotificationServiceImpl.java:35-41 | no user has a log and the table is empty |
| NotificationServiceImpl.NotificationService.AddNotification | src/main/java/com/softuni/event/service/impl/NotificationServiceImpl.java:136-149 | the user's deque becomes Pushed of the old one (created empty when missing): the new "<timestamp> - <message>" first, at most 20 entries; other users and the table are untouched |
| NotificationServiceImpl.NotificationService.AddForEach | src/main/java/com/softuni/event/service/impl/NotificationServiceImpl.java:83-85 | the logs become those after delivering the message to each user in turn, each stamped with its own clock reading |
| NotificationServiceImpl.NotificationService.NotifyEventStatusChange | src/main/java/com/softuni/event/service/impl/NotificationServiceImpl.java:74-90 | the logs become those after StatusChangeDeliveries, one clock reading per message |
| NotificationServiceImpl.NotificationService.NotifyEventCreated | src/main/java/com/softuni/event/service/impl/NotificationServiceImpl.java:93-99 | the logs become those after the organizer's single pending-approval message |
| NotificationServiceImpl.NotificationService.NotifyEventCancelled | src/main/java/com/softuni/event/service/impl/NotificationServiceImpl.java:102-112 | the logs become those after one cancellation message to each attendee, one clock reading per message |
| NotificationServiceImpl.NotificationService.NotifyUserJoinedEvent | src/main/java/com/softuni/event/service/impl/NotificationServiceImpl.java:115-128 | the logs become those after the organizer's message and then the joining user's, each at its own clock reading |
| NotificationServiceImpl.NotificationService.NotifyUpcomingEvent | src/main/java/com/softuni/event/service/impl/NotificationServiceImpl.java:56-67 | for one event, the logs become those after the organizer's message and then one per attendee, one clock reading per message |
| NotificationServiceImpl.NotificationService.NotifyUpcomingEvents | src/main/java/com/softuni/event/service/impl/NotificationServiceImpl.java:45-71 | the logs become those after delivering, event by event, the reminders of every APPROVED event of tomorrow, one clock reading per message |
| NotificationServiceImpl.NotificationService.NotifyEachUpcoming | src/main/java/com/softuni/event/service/impl/NotificationServiceImpl.java:55-70 | the logs become those after the reminders of each given event in turn, the readings consumed in order |
| NotificationServiceImpl.NotificationService.GetRecentNotifications | src/main/java/com/softuni/event/service/impl/NotificationServiceImpl.java:131-134 | the user's log newest first, at most 20 entries; an unknown user gets an empty list and no log is created |
| NotificationServiceImpl.NotificationService.CreateNotification | src/main/java/com/softuni/event/service/impl/NotificationServiceImpl.java:152-155 | exactly one unread notification with the given message, type, user and link is appended under the next id |
| NotificationServiceImpl.NotificationService.CreateEventStatusNotification | src/main/java/com/softuni/event/service/impl/NotificationServiceImpl.java:158-171 | exactly one notification is saved, to the organizer, worded by the type and linking to /events/details/<id> |
| NotificationServiceImpl.NotificationService.CreatePendingEventNotification | src/main/java/com/softuni/event/service/impl/NotificationServiceImpl.java:174-182 | exactly the PendingRows for the admins are appended, one per admin |
| NotificationServiceImpl.NotificationService.GetNotificationsForUser | src/main/java/com/softuni/event/service/impl/NotificationServiceImpl.java:185-187 | exactly the user's notifications, newest first; each row as often as it is stored |
| NotificationServiceImpl.NotificationService.GetUnreadNotificationsForUser | src/main/java/com/softuni/event/service/impl/NotificationServiceImpl.java:190-192 | exactly the user's unread notifications, newest first; each row as often as it is stored |
| NotificationServiceImpl.NotificationService.GetUnreadNotificationCount | src/main/java/com/softuni/event/service/impl/NotificationServiceImpl.java:195-197 | the count equals the length of the unread listing |
| NotificationServiceImpl.NotificationService.MarkAsRead | src/main/java/com/softuni/event/service/impl/NotificationServiceImpl.java:200-205 | an unknown id changes nothing; otherwise only that notification becomes read |
| NotificationServiceImpl.NotificationService.MarkAllAsRead | src/main/java/com/softuni/event/service/impl/NotificationServiceImpl.java:208-212 | the table becomes AllMarkedRead of the old table |
| NotificationServiceImpl.NotificationService.DeleteNotification | src/main/java/com/softuni/event/service/impl/NotificationServiceImpl.java:215-217 | an unknown id changes nothing; otherwise exactly that row is removed |
| SimpleNotificationServiceImpl.UnsavedNotification | src/main/java/com/softuni/event/service/impl/SimpleNotificationServiceImpl.java:143-149 | the returned notification carries the given message, type, user and link, is unread and has no id, so nothing was stored |
| SimpleNotificationServiceImpl.SimpleNotificationService.constructor | src/main/java/com/softuni/event/service/impl/SimpleNotificationServiceImpl.java:28-32 | no user has a log |
| SimpleNotificationServiceImpl.SimpleNotificationService.AddNotification | src/main/java/com/softuni/event/service/impl/SimpleNotificationServiceImpl.java:127-140 | the user's deque becomes Pushed of the old one: the new entry first, at most 20 entries; other users are untouched |
| SimpleNotificationServiceImpl.SimpleNotificationService.AddForEach | src/main/java/com/softuni/event/service/impl/SimpleNotificationServiceImpl.java:74-76 | the logs become those after delivering the message to each user in turn, each stamped with its own clock reading |
| SimpleNotificationServiceImpl.SimpleNotificationService.NotifyEventStatusChange | src/main/java/com/softuni/event/service/impl/SimpleNotificationServiceImpl.java:65-81 | the logs become those after StatusChangeDeliveries: the organizer, and the attendees only for APPROVED or CANCELED, one clock reading per message |
| SimpleNotificationServiceImpl.SimpleNotificationService.NotifyEventCreated | src/main/java/com/softuni/event/service/impl/SimpleNotificationServiceImpl.java:84-90 | the logs become those after the organizer's single pending-approval message |
| SimpleNotificationServiceImpl.SimpleNotificationService.NotifyEventCancelled | src/main/java/com/softuni/event/service/impl/SimpleNotificationServiceImpl.java:93-103 | the logs become those after one message to each attendee and none to the organizer as such, one clock reading per message |
| SimpleNotificationServiceImpl.SimpleNotificationService.NotifyUserJoinedEvent | src/main/java/com/softuni/event/service/impl/SimpleNotificationServiceImpl.java:106-119 | the logs become those after the organizer's message and then the joining user's, each at its own clock reading |
| SimpleNotificationServiceImpl.SimpleNotificationService.NotifyUpcomingEvent | src/main/java/com/softuni/event/service/impl/SimpleNotificationServiceImpl.java:47-58 | for one event, the logs become those after the organizer's message and then one per attendee, one clock reading per message |
| SimpleNotificationServiceImpl.SimpleNotificationService.NotifyUpcomingEvents | src/main/java/com/softuni/event/service/impl/SimpleNotificationServiceImpl.java:36-62 | the logs become those after the reminders of every APPROVED event of tomorrow, event by event, one clock reading per message |
| SimpleNotificationServiceImpl.SimpleNotificationService.NotifyEachUpcoming | src/main/java/com/softuni/event/service/impl/SimpleNotificationServiceImpl.java:46-61 | the logs become those after the reminders of each given event in turn, the readings consumed in order |
| SimpleNotificationServiceImpl.SimpleNotificationService.GetRecentNotifications | src/main/java/com/softuni/event/service/impl/SimpleNotificationServiceImpl.java:122-125 | the user's log newest first, at most 20 entries, and an empty list for an unknown user |
| SimpleNotificationServiceImpl.SimpleNotificationService.CreateEventStatusNotification | src/main/java/com/softuni/event/service/impl/SimpleNotificationServiceImpl.java:152-155 | whatever the type, the logs change exactly as notifyEventStatusChange changes them, on the same clock readings |
| SimpleNotificationServiceImpl.SimpleNotificationService.CreatePendingEventNotification | src/main/java/com/softuni/event/service/impl/SimpleNotificationServiceImpl.java:158-161 | only the organizer is told, exactly as notifyEventCreated does, and no admin |
| SimpleNotificationServiceImpl.SimpleNotificationService.GetNotificationsForUser | src/main/java/com/softuni/event/service/impl/SimpleNotificationServiceImpl.java:164-168 | always the empty list |
| SimpleNotificationServiceImpl.SimpleNotificationService.GetUnreadNotificationsForUser | src/main/java/com/softuni/event/service/impl/SimpleNotificationServiceImpl.java:171-175 | always the empty list |
| SimpleNotificationServiceImpl.SimpleNotificationService.GetUnreadNotificationCount | src/main/java/com/softuni/event/service/impl/SimpleNotificationServiceImpl.java:178-181 | always 0, the length of the empty unread list |
| SimpleNotificationServiceImpl.SimpleNotificationService.MarkAsRead | src/main/java/com/softuni/event/service/impl/SimpleNotificationServiceImpl.java:184-187 | the logs are unchanged |
| SimpleNotificationServiceImpl.SimpleNotificationService.MarkAllAsRead | src/main/java/com/softuni/event/service/impl/SimpleNotificationServiceImpl.java:190-193 | the logs are unchanged |
| SimpleNotificationServiceImpl.SimpleNotificationService.DeleteNotification | src/main/java/com/softuni/event/service/impl/SimpleNotificationServiceImpl.java:196-199 | the logs are unchanged |
| EventReminderServiceImpl.NonNullKeepsPresent | src/main/java/com/softuni/event/service/impl/EventReminderServiceImpl.java:138-142 | the attendees reminded are exactly the non-null ones, never more than the list holds |
| EventReminderServiceImpl.AttendeeCallsShape | src/main/java/com/softuni/event/service/impl/EventReminderServiceImpl.java:138-174 | each attendee, in order, gets one in-app EVENT_REMINDER notification with the attendee wording and the details link, then one attendee e-mail |
| EventReminderServiceImpl.ReminderCallsShape | src/main/java/com/softuni/event/service/impl/EventReminderServiceImpl.java:95-174 | the organizer gets the first two calls (in-app, then the organizer e-mail); each non-null attendee the next two; null attendees none |
| EventReminderServiceImpl.IndexOfEvent | src/main/java/com/softuni/event/service/impl/EventReminderServiceImpl.java:198-202 | absent exactly when no event has the id; otherwise the position of an event with that id |
| EventReminderServiceImpl.TryEach | src/main/java/com/softuni/event/service/impl/EventReminderServiceImpl.java:111-132 | the in-app call and the e-mail call each go through unless that very call throws; one failing does not stop the other |
| EventReminderServiceImpl.SendRemindersForEvent | src/main/java/com/softuni/event/service/impl/EventReminderServiceImpl.java:85-185 | false with no call for a null event or a null organizer; otherwise true, with exactly the attempted calls that did not throw, in order |
| EventReminderServiceImpl.RemindEach | src/main/java/com/softuni/event/service/impl/EventReminderServiceImpl.java:70-75 | the count is the number of events with an organizer, and the delivered calls are those of each such event in turn |
| EventReminderServiceImpl.ProcessReminderSchedule | src/main/java/com/softuni/event/service/impl/EventReminderServiceImpl.java:54-79 | only APPROVED events within 30 minutes of 24 hours from now are reminded; the result counts those with an organizer and is at most their number; an empty window gives 0 and no call |
| EventReminderServiceImpl.SendReminderForEvent | src/main/java/com/softuni/event/service/impl/EventReminderServiceImpl.java:193-233 | an unknown id gives false and no call; a known one gives the calls of sendRemindersForEvent on that event, whatever its status |
| EventReminderServiceImpl.NoFailureDeliversEverything | src/main/java/com/softuni/event/service/impl/EventReminderServiceImpl.java:111-132 | when no call throws, every attempted call goes through |
| EventReminderServiceImpl.ManualTriggerIgnoresStatus | src/main/java/com/softuni/event/service/impl/EventReminderServiceImpl.java:225-228 | the calls for an event do not depend on its status |
| EventReminderServiceImpl.AttendeeCallsIgnoreStatus | src/main/java/com/softuni/event/service/impl/EventReminderServiceImpl.java:147-152 | the attendee calls do not depend on the event's status |
| EmailServiceImpl.OrElse | src/main/java/com/softuni/event/service/impl/EmailServiceImpl.java:141-142 | a null value falls back to the given default, a present one is kept |
| EmailServiceImpl.AddressLineFallback | src/main/java/com/softuni/event/service/impl/EmailServiceImpl.java:155-162 | the address line is never empty; it is "address, city" when both have text, and "TBA" only when neither part has text (or the one with text is itself "TBA") |
| EmailServiceImpl.OrganizerNameFallback | src/main/java/com/softuni/event/service/impl/EmailServiceImpl.java:230-241 | the organizer's name is never empty, begins with the first name when there is one, and is "Event Organizer" without an organizer |
| EmailServiceImpl.SubjectsDiffer | src/main/java/com/softuni/event/service/impl/EmailServiceImpl.java:120-126 | the organizer's subject and the attendee's subject are never the same |
| EmailServiceImpl.EmailService.constructor | src/main/java/com/softuni/event/service/impl/EmailServiceImpl.java:35-41 | the switch and the sender address are as configured, and nothing is sent |
| EmailServiceImpl.EmailService.SendSimpleMessage | src/main/java/com/softuni/event/service/impl/EmailServiceImpl.java:44-61 | when disabled nothing is sent; otherwise one plain mail from the sender address is added, unless the server throws, which is caught |
| EmailServiceImpl.EmailService.SendHtmlMessage | src/main/java/com/softuni/event/service/impl/EmailServiceImpl.java:64-95 | when disabled nothing is sent; otherwise one HTML mail is added, unless the server throws, which is caught |
| EmailServiceImpl.EmailService.SendEventReminder | src/main/java/com/softuni/event/service/impl/EmailServiceImpl.java:98-136 | nothing is sent for a null user, a null or blank address or a null event; otherwise one HTML mail to the user with the role's subject and content, subject to the switch and the server |
| NotificationsScript.IconFor | src/main/resources/static/js/notifications.js:124-144 | the gear icon is shown exactly for the types without an icon of their own (SYSTEM and any unknown type) |
| NotificationsScript.OwnIconsAreDistinct | src/main/resources/static/js/notifications.js:124-139 | the five types with their own icon never share one |
| NotificationsScript.DateText | src/main/resources/static/js/notifications.js:147-157 | a missing or empty date, or one that does not parse, shows "Just now"; otherwise the formatted date |
| NotificationsScript.ItemOf | src/main/resources/static/js/notifications.js:159-178 | an item keeps the notification's id and message, is unread with its indicator shown, uses the type's icon and the date text, and has a "View" link exactly when the link is non-empty |
| NotificationsScript.BadgeAfter | src/main/resources/static/js/notifications.js:95-102 | the badge is shown exactly for a positive count, with that count as its text; otherwise hidden with its text kept |
| NotificationsScript.BadgeUpdateIsIdempotent | src/main/resources/static/js/notifications.js:95-102 | showing the same count twice is the same as showing it once |
| NotificationsScript.AllRead | src/main/resources/static/js/notifications.js:16-17 | every item loses its unread mark and indicator, and nothing else changes |
| NotificationsScript.MarkAllReadClearsEveryItem | src/main/resources/static/js/notifications.js:14-18 | after "mark all read" no item is unread, and ids, messages and links stay in order |
| NotificationsScript.ListAfterDelete | src/main/resources/static/js/notifications.js:50-61 | the deleted item goes and the others keep their order; the empty state appears exactly when it was the last item |
| NotificationsScript.DeleteKeepsOthersInOrder | src/main/resources/static/js/notifications.js:50-61 | each remaining item is the one that stood before it, shifted past the deleted one |
| NotificationsScript.MarkReadRequest | src/main/resources/static/js/notifications.js:23-35 | a click sends /notifications/mark-read/<id> exactly when it did not land inside a button |
| NotificationsScript.BuildItems | src/main/resources/static/js/notifications.js:118-179 | one item per notification, in order, each built by ItemOf |
| NotificationsScript.NotificationDropdown.constructor | src/main/resources/static/js/notifications.js:4-7 | the badge is hidden and the list shows the empty state |
| NotificationsScript.NotificationDropdown.UpdateNotificationBadge | src/main/resources/static/js/notifications.js:95-102 | the badge becomes BadgeAfter of the old badge; the list is untouched |
| NotificationsScript.NotificationDropdown.RenderNotifications | src/main/resources/static/js/notifications.js:107-182 | no notifications give the empty state; otherwise one item per notification, in order; the list never holds zero items |
| NotificationsScript.NotificationDropdown.MarkAllReadSucceeded | src/main/resources/static/js/notifications.js:14-18 | the badge is hidden and every listed item is marked read |
| NotificationsScript.NotificationDropdown.DeleteSucceeded | src/main/resources/static/js/notifications.js:49-61 | the list becomes ListAfterDelete of the old list, the badge is untouched |
| PageScript.DecompositionIsExact | src/main/resources/static/js/scripts.js:48-51 | hours stay below 24 and minutes and seconds below 60, and the four numbers account for the whole time left except its last partial second |
| PageScript.Tick | src/main/resources/static/js/scripts.js:33-55 | a cleared interval changes nothing; a negative time left clears it and shows "Event has started!"; otherwise it keeps running and shows the decomposed time left |
| PageScript.StoppedStaysStopped | src/main/resources/static/js/scripts.js:41-45 | once the interval is cleared, later ticks change nothing, whatever the clock says |
| PageScript.ExpiredTickIsFinal | src/main/resources/static/js/scripts.js:41-45 | after one tick past the start the element shows "Event has started!" for good, even if the clock later reads earlier |
| PageScript.ZeroTimeLeftShowsZeros | src/main/resources/static/js/scripts.js:41-54 | at the start instant itself the countdown shows "0d 0h 0m 0s" rather than the started message |
| PageScript.ToggledType | src/main/resources/static/js/scripts.js:63 | the field becomes "text" exactly when it was "password", and "password" otherwise |
| PageScript.ToggleClass | src/main/resources/static/js/scripts.js:67-68 | toggling a class flips its membership and leaves every other class alone |
| PageScript.TwoClicksRestore | src/main/resources/static/js/scripts.js:61-68 | two clicks restore a password or text field and the icon's classes |
| PageScript.ClickSwapsEye | src/main/resources/static/js/scripts.js:67-68 | a click flips bi-eye and bi-eye-slash and leaves the other classes alone |
| PageScript.Submit | src/main/resources/static/js/scripts.js:12-18 | the submission is stopped exactly when the form is invalid, and was-validated is added either way |
| PageScript.CountdownElement.constructor | src/main/resources/static/js/scripts.js:28-33 | the interval runs and the element shows its initial markup |
| PageScript.CountdownElement.OnTick | src/main/resources/static/js/scripts.js:33-55 | the element's state becomes Tick of the old state at that time |
| PageScript.PasswordToggle.constructor | src/main/resources/static/js/scripts.js:59-62 | the field type and the icon's classes are as given |
| PageScript.PasswordToggle.OnClick | src/main/resources/static/js/scripts.js:61-69 | the field type becomes ToggledType of the old one and the icon's classes are both eye classes toggled |
| PageScript.ValidatedForm.constructor | src/main/resources/static/js/scripts.js:10-11 | the form's classes are as given |
| PageScript.ValidatedForm.OnSubmit | src/main/resources/static/js/scripts.js:12-18 | the result and the new classes are exactly Submit of the old classes and the validity |

## Left out

- HTTP and the web layer: request binding, views, templates, Spring Security and the configuration classes (SecurityConfig, WebConfig, EmailConfig, DataInitializer). They are framework wiring. The thin controllers (home, location, contact, notification, admin, the REST controllers and the error handlers) only delegate to the services modelled here.
- The certificate client and the weather lookup make RestTemplate network calls, so they are not modelled. The certificate action of the event controller is modelled only up to its status guard (`CertificateGuard`).
- ModelMapper and DTO mapping: services return the entity records themselves. The weather data that `mapToDetailDTO` attaches is not modelled.
- EventServiceImpl's read-only listings (getAllEvents, getEventsByStatus, getUpcomingEvents, getPastEvents, searchEvents, getEventsByOrganizer, getJoinedEvents, getEventById) are stream maps over repository queries. The queries themselves are modelled in `EventRepository`. The EventService interface methods that the implementation does not define (isLocationAvailable, getEventsByMonth, permanentlyDeleteEvent, getEvent) are not modelled, because their behaviour is not visible.
- The clock and date formatting: `LocalDateTime.now`, `DateTimeFormatter`, `toLocaleDateString` and `new Date(...)` are parameters. Instants are integers, and formatted dates are opaque strings supplied by the caller.
- The calendar page's month length, day-of-week layout and events-by-day grouping are library date arithmetic. Only the month clamp and the previous/next navigation are modelled.
- PaymentServiceImpl.getTotalPaymentAmount is left out because it sums `double` amounts.
- PaymentServiceImpl.getPaymentsByUser is left out because it always queries `findByUserId(null)` and does not depend on its argument.
- The repository queries findByCountry, findByStatus (payments) and findPaymentsBetweenDates are not used by the modelled operations.
- ConcurrentHashMap and ConcurrentLinkedDeque in the two notification services are modelled as a sequential map of sequences. Interleavings of concurrent callers are not modelled.
- The reminder e-mail's HTML layout and the current year in its footer are static markup. The model records the values filled into it (`ReminderContent`), not the markup.
- The builders' own catch blocks, which fall back to a one-line body, are not modelled. Nothing in the modelled builders throws.
- The browser's `$.ajax` requests, the 30-second polling, the `fadeOut` animation, the Bootstrap tooltips, the card animation and `main.js` are asynchronous I/O or visual effects. `main.js` repeats the badge rule of `notifications.js`. Each handler is modelled from the moment its request succeeds. The refetch that follows a click or a deletion is a call to the modelled `RenderNotifications` and `UpdateNotificationBadge`.
- The item markup of `renderNotifications` is modelled as an `Item` record holding the values the template interpolates.
- The countdown's `new Date(...).getTime()` on an unparsable date gives `NaN`. Only integer instants are modelled.
- EventRepository.SearchByTitleOrDescription: SQL `LOWER` is modelled for ASCII letters only, since Unicode case mapping is database-specific.
- UserServiceImpl.ChangeRoleSetsAdmin assumes at most one ADMIN row for the user, because with two ADMIN rows one revocation leaves the other. `RevokeRemovesOneAdmin` states the general case.
- Persistence failures other than the unique and foreign-key constraints modelled as `ConstraintViolation` (connection loss, transaction rollback) are not modelled.
- LocationServiceImpl.LocationService.CreateLocation: a form carrying an id that no stored location has is inserted under the next id, as a JPA merge of a new instance does. Recent Hibernate releases refuse that case with an optimistic-lock error instead. The framework version is not part of this model.
- BigDecimal prices and payment amounts (ticketPrice, amount) are whole minor units (`int`). The modelled operations only copy and compare them and never compute with them, so rounding and scale are not modelled.
