/**
 * LocationServiceImpl: venues created from the location form, updated field
 * by field, deleted, and filtered by city, capacity and name.
 */
module LocationServiceImpl {
  import opened Common
  import opened Entities

  /** The fields of the location form; `id` is bound from the request when one is posted. */
  datatype LocationForm = LocationForm(
    id: Option<nat>,
    name: string,
    address: string,
    city: Option<string>,
    country: Option<string>,
    capacity: Option<int>)

  /** The name holds `keyword` as a substring. */
  predicate NameContains(name: string, keyword: string)
  {
    exists i :: 0 <= i <= |name| && OccursAt(keyword, name, i)
  }

  /** `findByCity`: exact match; a location without a city never matches. */
  function LocationsByCity(locations: seq<Location>, city: string): (r: seq<Location>)
    ensures forall l :: l in r <==> l in locations && l.city == Some(city)
    ensures forall l :: multiset(r)[l] == if l.city == Some(city) then multiset(locations)[l] else 0
    ensures IsSubsequence(r, locations)
  {
    Filter(locations, (l: Location) => l.city == Some(city))
  }

  /** `findByCapacityGreaterThanEqual`: a location without a capacity never matches. */
  function LocationsByCapacity(locations: seq<Location>, capacity: int): (r: seq<Location>)
    ensures forall l :: l in r <==> l in locations && l.capacity.Some? && l.capacity.value >= capacity
    ensures forall l :: multiset(r)[l] == if l.capacity.Some? && l.capacity.value >= capacity then multiset(locations)[l] else 0
    ensures IsSubsequence(r, locations)
  {
    Filter(locations, (l: Location) => l.capacity.Some? && l.capacity.value >= capacity)
  }

  /** `findByNameContaining`: a case-sensitive substring match on the name. */
  function LocationsByName(locations: seq<Location>, keyword: string): (r: seq<Location>)
    ensures forall l :: l in r <==> l in locations && NameContains(l.name, keyword)
    ensures forall l :: multiset(r)[l] == if NameContains(l.name, keyword) then multiset(locations)[l] else 0
    ensures IsSubsequence(r, locations)
  {
    Filter(locations, (l: Location) => NameContains(l.name, keyword))
  }

  /** A larger minimum capacity selects fewer locations. */
  lemma CapacityFilterIsMonotone(locations: seq<Location>, low: int, high: int, l: Location)
    requires low <= high
    ensures l in LocationsByCapacity(locations, high) ==> l in LocationsByCapacity(locations, low)
  {
  }

  /** The empty keyword matches every location. */
  lemma EmptyKeywordMatchesAll(locations: seq<Location>)
    ensures forall l :: l in locations ==> l in LocationsByName(locations, "")
  {
    forall l | l in locations
      ensures l in LocationsByName(locations, "")
    {
      assert OccursAt("", l.name, 0);
    }
  }

  function IndexOfLocation(locations: seq<Location>, id: nat): (r: Option<nat>)
    ensures r.None? <==> forall i :: 0 <= i < |locations| ==> locations[i].id != id
    ensures r.Some? ==> r.value < |locations| && locations[r.value].id == id
  {
    FirstIndex(locations, (x: Location) => x.id == id)
  }

  /** The five fields updateLocation writes, and the stamp; every other field is kept. */
  function Updated(l: Location, form: LocationForm, now: Instant): (r: Location)
    ensures r.id == l.id && r.zipCode == l.zipCode && r.latitude == l.latitude && r.longitude == l.longitude
    ensures r.description == l.description && r.createdAt == l.createdAt
    ensures r.name == form.name && r.address == form.address && r.city == form.city
    ensures r.country == form.country && r.capacity == form.capacity && r.updatedAt == Some(now)
  {
    l.(name := form.name, address := form.address, city := form.city, country := form.country,
       capacity := form.capacity, updatedAt := Some(now))
  }

  /**
   * The entity createLocation maps from the form and saves under `id`: the
   * form's fields, createdAt now, and every column the form lacks empty.
   */
  function Mapped(id: nat, form: LocationForm, now: Instant): (r: Location)
    ensures r.id == id && r.name == form.name && r.address == form.address && r.city == form.city
    ensures r.country == form.country && r.capacity == form.capacity
    ensures r.zipCode.None? && r.latitude.None? && r.longitude.None? && r.description.None?
    ensures r.createdAt == Some(now) && r.updatedAt.None?
  {
    Location(id, form.name, form.address, form.city, form.country, None, None, None, form.capacity, None, Some(now), None)
  }

  /**
   * Saving a form that carries the id of a stored location replaces that row
   * by what updateLocation would have written, except that the columns the
   * form lacks are emptied, createdAt is reset and updatedAt is cleared.
   */
  lemma MergeClearsUnmappedColumns(l: Location, form: LocationForm, now: Instant)
    ensures Mapped(l.id, form, now) == Updated(l, form, now).(zipCode := None, latitude := None, longitude := None,
                                                           description := None, createdAt := Some(now), updatedAt := None)
    ensures Mapped(l.id, form, now) == l <==>
              Updated(l, form, now).(updatedAt := None) == l &&
              l.zipCode.None? && l.latitude.None? && l.longitude.None? && l.description.None? && l.createdAt == Some(now)
  {
  }

  /** Updating twice with the same form is updating once. */
  lemma UpdateIsIdempotent(l: Location, form: LocationForm, now: Instant)
    ensures Updated(Updated(l, form, now), form, now) == Updated(l, form, now)
  {
  }

  ghost predicate Wellformed(locations: seq<Location>, nextId: nat)
  {
    && (forall i :: 0 <= i < |locations| ==> locations[i].id < nextId)
    && (forall i, j :: 0 <= i < j < |locations| ==> locations[i].id != locations[j].id)
  }

  class LocationService {
    var locations: seq<Location>
    /** The location_id column of the events table, which this service reads and never writes. */
    var eventLocationIds: seq<nat>
    var nextId: nat

    ghost predicate Valid()
      reads this
    {
      Wellformed(locations, nextId)
    }

    constructor (eventLocationIds: seq<nat>)
      ensures Valid() && locations == [] && this.eventLocationIds == eventLocationIds
    {
      locations := [];
      this.eventLocationIds := eventLocationIds;
      nextId := 1;
    }

    function GetLocationById(id: nat): (r: Result<Location>)
      reads this
      ensures r.Err? <==> IndexOfLocation(locations, id).None?
      ensures r.Err? ==> r.error == ResourceNotFound("Location", "id")
      ensures r.Ok? ==> r.value in locations && r.value.id == id
    {
      match IndexOfLocation(locations, id)
        case None => Err(ResourceNotFound("Location", "id"))
        case Some(i) => Ok(locations[i])
    }

    /**
     * Maps the form to an entity stamped `now` and saves it. Without an id
     * (or with an id no stored location has) the entity is inserted under
     * the next id; with the id of a stored location it is merged onto that
     * row, which it replaces whole.
     */
    method CreateLocation(form: LocationForm, now: Instant) returns (r: Location)
      requires Valid()
      modifies this
      ensures Valid() && eventLocationIds == old(eventLocationIds)
      ensures form.id.Some? && IndexOfLocation(old(locations), form.id.value).Some? ==>
                var i := IndexOfLocation(old(locations), form.id.value).value;
                r == Mapped(form.id.value, form, now) && locations == old(locations)[i := r] && nextId == old(nextId)
      ensures form.id.None? || IndexOfLocation(old(locations), form.id.value).None? ==>
                r == Mapped(old(nextId), form, now) && locations == old(locations) + [r] && nextId == old(nextId) + 1
    {
      var index := if form.id.Some? then IndexOfLocation(locations, form.id.value) else None;
      if index.Some? {
        r := Mapped(form.id.value, form, now);
        locations := locations[index.value := r];
        return;
      }
      r := Mapped(nextId, form, now);
      ghost var before := locations;
      locations := locations + [r];
      assert forall k :: 0 <= k < |before| ==> locations[k] == before[k];
      nextId := nextId + 1;
    }

    /** Overwrites name, address, city, country and capacity; an unknown id is an error and saves nothing. */
    method UpdateLocation(id: nat, form: LocationForm, now: Instant) returns (r: Result<()>)
      requires Valid()
      modifies this
      ensures Valid() && eventLocationIds == old(eventLocationIds) && nextId == old(nextId)
      ensures r.Err? <==> IndexOfLocation(old(locations), id).None?
      ensures r.Err? ==> r.error == ResourceNotFound("Location", "id") && locations == old(locations)
      ensures r.Ok? ==> var i := IndexOfLocation(old(locations), id).value;
                        locations == old(locations)[i := Updated(old(locations)[i], form, now)]
    {
      var index := IndexOfLocation(locations, id);
      if index.None? {
        return Err(ResourceNotFound("Location", "id"));
      }
      var i := index.value;
      locations := locations[i := Updated(locations[i], form, now)];
      r := Ok(());
    }

    /**
     * Deletes exactly the location with this id. An unknown id is an error;
     * a location an event still points at is refused by the foreign key.
     */
    method DeleteLocation(id: nat) returns (r: Result<()>)
      requires Valid()
      modifies this
      ensures Valid() && eventLocationIds == old(eventLocationIds) && nextId == old(nextId)
      ensures IndexOfLocation(old(locations), id).None? ==>
                r == Err(ResourceNotFound("Location", "id")) && locations == old(locations)
      ensures IndexOfLocation(old(locations), id).Some? && id in eventLocationIds ==>
                r == Err(ConstraintViolation("location_id")) && locations == old(locations)
      ensures IndexOfLocation(old(locations), id).Some? && id !in eventLocationIds ==>
                var i := IndexOfLocation(old(locations), id).value;
                r == Ok(()) && locations == old(locations)[..i] + old(locations)[i + 1..]
    {
      var index := IndexOfLocation(locations, id);
      if index.None? {
        return Err(ResourceNotFound("Location", "id"));
      }
      if id in eventLocationIds {
        return Err(ConstraintViolation("location_id"));
      }
      var i := index.value;
      ghost var before := locations;
      locations := locations[..i] + locations[i + 1..];
      assert forall k :: 0 <= k < |locations| ==> locations[k] == before[if k < i then k else k + 1];
      r := Ok(());
    }

    function GetLocationsByCity(city: string): (r: seq<Location>)
      reads this
      ensures forall l :: l in r <==> l in locations && l.city == Some(city)
      ensures forall l :: multiset(r)[l] == if l.city == Some(city) then multiset(locations)[l] else 0
      ensures IsSubsequence(r, locations)
    {
      LocationsByCity(locations, city)
    }

    function GetLocationsByCapacity(capacity: int): (r: seq<Location>)
      reads this
      ensures forall l :: l in r <==> l in locations && l.capacity.Some? && l.capacity.value >= capacity
      ensures forall l :: multiset(r)[l] == if l.capacity.Some? && l.capacity.value >= capacity then multiset(locations)[l] else 0
      ensures IsSubsequence(r, locations)
    {
      LocationsByCapacity(locations, capacity)
    }

    function SearchLocations(keyword: string): (r: seq<Location>)
      reads this
      ensures forall l :: l in r <==> l in locations && NameContains(l.name, keyword)
      ensures forall l :: multiset(r)[l] == if NameContains(l.name, keyword) then multiset(locations)[l] else 0
      ensures IsSubsequence(r, locations)
    {
      LocationsByName(locations, keyword)
    }
  }

  /** Deleting position `i` of a table with distinct ids removes exactly the location with that id. */
  lemma DeleteRemovesExactlyThatLocation(locations: seq<Location>, i: nat)
    requires i < |locations|
    requires forall a, b :: 0 <= a < b < |locations| ==> locations[a].id != locations[b].id
    ensures forall l :: l in locations[..i] + locations[i + 1..] <==> l in locations && l.id != locations[i].id
  {
    var s := locations[..i] + locations[i + 1..];
    forall l | l in s
      ensures l in locations && l.id != locations[i].id
    {
      var k :| 0 <= k < |s| && s[k] == l;
      assert s[k] == locations[if k < i then k else k + 1];
    }
    forall l | l in locations && l.id != locations[i].id
      ensures l in s
    {
      var k :| 0 <= k < |locations| && locations[k] == l;
      assert s[if k < i then k else k - 1] == l;
    }
  }
}
