/**
 * The persistent entities the services read and write, as plain records.
 * References between entities are held by key: an event names its organizer
 * by username and its location by id; a ticket names its event and user by id.
 * Prices are whole minor units; coordinates are opaque numbers the model never
 * computes with.
 */
module Entities {
  import opened Common

  /** EventEntity. `attendees` holds usernames (usernames are unique). */
  datatype Event = Event(
    id: nat,
    title: string,
    description: string,
    eventDate: Instant,
    registrationDeadline: Option<Instant>,
    paid: bool,
    ticketPrice: Option<int>,
    availableTickets: Option<int>,
    status: EventStatus,
    organizer: string,
    locationId: nat,
    attendees: set<string>,
    createdAt: Option<Instant>,
    updatedAt: Option<Instant>)

  /** LocationEntity. */
  datatype Location = Location(
    id: nat,
    name: string,
    address: string,
    city: Option<string>,
    country: Option<string>,
    zipCode: Option<string>,
    latitude: Option<int>,
    longitude: Option<int>,
    capacity: Option<int>,
    description: Option<string>,
    createdAt: Option<Instant>,
    updatedAt: Option<Instant>)

  /** TicketEntity once persisted: number and issue date are set. */
  datatype Ticket = Ticket(
    id: nat,
    ticketNumber: string,
    issueDate: Instant,
    used: bool,
    eventId: nat,
    userId: nat,
    createdAt: Option<Instant>,
    updatedAt: Option<Instant>)

  /** UserEntity without its role rows (those live in the user_roles table). */
  datatype User = User(
    id: nat,
    username: string,
    email: string,
    password: string,
    firstName: Option<string>,
    lastName: Option<string>,
    phone: Option<string>,
    createdAt: Option<Instant>,
    updatedAt: Option<Instant>)

  /** NotificationEntity; `id` is null until the entity is saved. */
  datatype Notification = Notification(
    id: Option<nat>,
    message: string,
    kind: NotificationType,
    userId: nat,
    link: Option<string>,
    createdAt: Instant,
    read: bool)

  /** A row of the user_roles table: a role owned by one user. */
  datatype RoleRow = RoleRow(id: nat, role: UserRole, owner: nat)

  /** Look-ups by key, as the repositories' findById / findByUsername return them. */
  function EventById(events: seq<Event>, id: nat): (r: Option<Event>)
    ensures r.None? <==> forall e :: e in events ==> e.id != id
    ensures r.Some? ==> r.value in events && r.value.id == id
  {
    Find(events, (x: Event) => x.id == id)
  }

  function LocationById(locations: seq<Location>, id: nat): (r: Option<Location>)
    ensures r.None? <==> forall l :: l in locations ==> l.id != id
    ensures r.Some? ==> r.value in locations && r.value.id == id
  {
    Find(locations, (x: Location) => x.id == id)
  }

  function UserById(users: seq<User>, id: nat): (r: Option<User>)
    ensures r.None? <==> forall u :: u in users ==> u.id != id
    ensures r.Some? ==> r.value in users && r.value.id == id
  {
    Find(users, (x: User) => x.id == id)
  }

  function UserByUsername(users: seq<User>, username: string): (r: Option<User>)
    ensures r.None? <==> forall u :: u in users ==> u.username != username
    ensures r.Some? ==> r.value in users && r.value.username == username
  {
    Find(users, (x: User) => x.username == username)
  }

  /** The position of the event with this id, for updates in place. */
  function EventIndex(events: seq<Event>, id: nat): (r: Option<nat>)
    ensures r.None? <==> EventById(events, id).None?
    ensures r.Some? ==> r.value < |events| && events[r.value].id == id && EventById(events, id) == Some(events[r.value])
  {
    FirstIndex(events, (x: Event) => x.id == id)
  }

  function UserByEmail(users: seq<User>, email: string): (r: Option<User>)
    ensures r.None? <==> forall u :: u in users ==> u.email != email
    ensures r.Some? ==> r.value in users && r.value.email == email
  {
    Find(users, (x: User) => x.email == email)
  }

  /** The position of the user with this id, for updates in place. */
  function UserIndex(users: seq<User>, id: nat): (r: Option<nat>)
    ensures r.None? <==> UserById(users, id).None?
    ensures r.Some? ==> r.value < |users| && users[r.value].id == id && UserById(users, id) == Some(users[r.value])
  {
    FirstIndex(users, (x: User) => x.id == id)
  }
}
