/**
 * The explicit JPQL queries of EventRepository, as functions over the event
 * table (a sequence in repository order).
 */
module EventRepository {
  import opened Common
  import opened Entities

  /** The overlap rule treats every event as lasting three hours. */
  const ASSUMED_DURATION: int := 3 * HOUR

  function DateKey(e: Event): int { e.eventDate }
  function NegDateKey(e: Event): int { -e.eventDate }

  /** `ORDER BY eventDate` over the rows a query selected. */
  function Earliest(es: seq<Event>): (r: seq<Event>)
    ensures multiset(r) == multiset(es)
    ensures forall e :: e in r <==> e in es
    ensures forall i, j :: 0 <= i < j < |r| ==> r[i].eventDate <= r[j].eventDate
  {
    var r := SortBy(es, DateKey);
    SortByMembers(es, DateKey);
    assert forall i, j :: 0 <= i < j < |r| ==> DateKey(r[i]) <= DateKey(r[j]);
    r
  }

  /** `ORDER BY eventDate DESC` over the rows a query selected. */
  function Latest(es: seq<Event>): (r: seq<Event>)
    ensures multiset(r) == multiset(es)
    ensures forall e :: e in r <==> e in es
    ensures forall i, j :: 0 <= i < j < |r| ==> r[i].eventDate >= r[j].eventDate
  {
    var r := SortBy(es, NegDateKey);
    SortByMembers(es, NegDateKey);
    assert forall i, j :: 0 <= i < j < |r| ==> NegDateKey(r[i]) <= NegDateKey(r[j]);
    r
  }

  /** `eventDate > now AND status = ?2 ORDER BY eventDate`. */
  function FindUpcomingEvents(events: seq<Event>, now: Instant, status: EventStatus): (r: seq<Event>)
    ensures forall e :: e in r <==> e in events && e.eventDate > now && e.status == status
    ensures forall e :: multiset(r)[e] == if e.eventDate > now && e.status == status then multiset(events)[e] else 0
    ensures forall i, j :: 0 <= i < j < |r| ==> r[i].eventDate <= r[j].eventDate
  {
    Earliest(Filter(events, (e: Event) => e.eventDate > now && e.status == status))
  }

  /** `eventDate < now AND status = ?2 ORDER BY eventDate DESC`. */
  function FindPastEvents(events: seq<Event>, now: Instant, status: EventStatus): (r: seq<Event>)
    ensures forall e :: e in r <==> e in events && e.eventDate < now && e.status == status
    ensures forall e :: multiset(r)[e] == if e.eventDate < now && e.status == status then multiset(events)[e] else 0
    ensures forall i, j :: 0 <= i < j < |r| ==> r[i].eventDate >= r[j].eventDate
  {
    Latest(Filter(events, (e: Event) => e.eventDate < now && e.status == status))
  }

  /**
   * `eventDate BETWEEN ?1 AND ?2 AND status = ?3`, in repository order. The
   * derived query findByEventDateBetweenAndStatus has the same meaning.
   */
  function FindEventsBetweenDates(events: seq<Event>, start: Instant, end: Instant, status: EventStatus): (r: seq<Event>)
    ensures forall e :: e in r <==> e in events && start <= e.eventDate <= end && e.status == status
    ensures forall e :: multiset(r)[e] == if start <= e.eventDate <= end && e.status == status then multiset(events)[e] else 0
    ensures IsSubsequence(r, events)
    ensures |r| <= |events|
  {
    Filter(events, (e: Event) => start <= e.eventDate <= end && e.status == status)
  }

  /** ASCII lower-casing, as SQL LOWER does on plain letters. */
  function LowerChar(c: char): char
  {
    if 'A' <= c <= 'Z' then (c as int + 32) as char else c
  }

  function Lower(s: string): (r: string)
    ensures |r| == |s|
    ensures forall i :: 0 <= i < |s| ==> r[i] == LowerChar(s[i])
  {
    if s == [] then [] else [LowerChar(s[0])] + Lower(s[1..])
  }

  /** SQL LIKE: '%' matches any run of characters, '_' any single character. */
  function Like(s: string, p: string): bool
    decreases |s| + |p|
  {
    if p == [] then s == []
    else if p[0] == '%' then Like(s, p[1..]) || (s != [] && Like(s[1..], p))
    else s != [] && (p[0] == '_' || p[0] == s[0]) && Like(s[1..], p[1..])
  }

  predicate NoWildcards(k: string)
  {
    forall i :: 0 <= i < |k| ==> k[i] != '%' && k[i] != '_'
  }

  /**
   * `(LOWER(title) LIKE LOWER('%' || kw || '%') OR LOWER(description) LIKE ...)
   * AND status = APPROVED`, in repository order. A keyword holding '%' or '_'
   * is used as a pattern, not escaped.
   */
  function SearchByTitleOrDescription(events: seq<Event>, keyword: string): (r: seq<Event>)
    ensures forall e :: e in r <==>
      (e in events && e.status == APPROVED &&
       (Like(Lower(e.title), Lower("%" + keyword + "%")) || Like(Lower(e.description), Lower("%" + keyword + "%"))))
    ensures forall e :: multiset(r)[e] ==
              (if e.status == APPROVED &&
                  (Like(Lower(e.title), Lower("%" + keyword + "%")) || Like(Lower(e.description), Lower("%" + keyword + "%")))
               then multiset(events)[e] else 0)
    ensures IsSubsequence(r, events)
  {
    var p := Lower("%" + keyword + "%");
    Filter(events, (e: Event) => (Like(Lower(e.title), p) || Like(Lower(e.description), p)) && e.status == APPROVED)
  }

  lemma {:induction false} LikeAnyRun(s: string)
    ensures Like(s, "%")
  {
    if s != [] {
      LikeAnyRun(s[1..]);
    }
  }

  /** A literal pattern followed by '%' matches exactly the strings it prefixes. */
  lemma {:induction false} LikePrefix(s: string, k: string)
    requires NoWildcards(k)
    ensures Like(s, k + "%") <==> OccursAt(k, s, 0)
  {
    if k == [] {
      assert k + "%" == "%";
      LikeAnyRun(s);
    } else {
      assert (k + "%")[1..] == k[1..] + "%";
      if s != [] {
        LikePrefix(s[1..], k[1..]);
        if OccursAt(k, s, 0) {
          assert s[1..][0..|k[1..]|] == s[1..|k|];
          assert k[1..] == s[..|k|][1..];
        }
        if OccursAt(k[1..], s[1..], 0) && k[0] == s[0] {
          assert s[..|k|] == [s[0]] + s[1..][..|k[1..]|];
        }
      }
    }
  }

  /** '%' followed by a suffix pattern matches when the suffix matches at some offset. */
  lemma {:induction false} LikeLeadingRun(s: string, q: string)
    ensures Like(s, "%" + q) <==> exists i :: 0 <= i <= |s| && Like(s[i..], q)
  {
    assert ("%" + q)[1..] == q;
    assert s[0..] == s;
    if s != [] {
      LikeLeadingRun(s[1..], q);
      if exists i :: 0 <= i <= |s| && Like(s[i..], q) {
        var i :| 0 <= i <= |s| && Like(s[i..], q);
        if i > 0 {
          assert s[1..][i - 1..] == s[i..];
        }
      }
      if exists i :: 0 <= i <= |s[1..]| && Like(s[1..][i..], q) {
        var i :| 0 <= i <= |s[1..]| && Like(s[1..][i..], q);
        assert s[1..][i..] == s[i + 1..];
      }
    }
  }

  /** For a keyword without wildcards, the search pattern is a substring test. */
  lemma KeywordPatternIsSubstring(s: string, k: string)
    requires NoWildcards(k)
    ensures Like(s, "%" + k + "%") <==> exists i :: 0 <= i <= |s| && OccursAt(k, s, i)
  {
    assert "%" + k + "%" == "%" + (k + "%");
    LikeLeadingRun(s, k + "%");
    forall i | 0 <= i <= |s|
      ensures Like(s[i..], k + "%") <==> OccursAt(k, s, i)
    {
      LikePrefix(s[i..], k);
      if i + |k| <= |s| {
        assert s[i..][0..|k|] == s[i..i + |k|];
      }
    }
  }

  /**
   * `location.id = :locationId AND status IN :statuses AND (id != :exclude OR
   * :exclude IS NULL) AND (eventDate BETWEEN :start AND :end OR (eventDate <
   * :start AND eventDate + 3 hours > :start))`, in repository order.
   */
  predicate Overlaps(e: Event, locationId: nat, start: Instant, end: Instant, exclude: Option<nat>, statuses: seq<EventStatus>)
  {
    && e.locationId == locationId
    && e.status in statuses
    && (exclude.None? || e.id != exclude.value)
    && ((start <= e.eventDate <= end) || (e.eventDate < start && e.eventDate + ASSUMED_DURATION > start))
  }

  function FindOverlappingEvents(events: seq<Event>, locationId: nat, start: Instant, end: Instant,
                                 exclude: Option<nat>, statuses: seq<EventStatus>): (r: seq<Event>)
    ensures forall e :: e in r <==> e in events && Overlaps(e, locationId, start, end, exclude, statuses)
    ensures forall e :: multiset(r)[e] == if Overlaps(e, locationId, start, end, exclude, statuses) then multiset(events)[e] else 0
    ensures IsSubsequence(r, events)
    ensures exclude.Some? ==> forall e :: e in r ==> e.id != exclude.value
  {
    Filter(events, (e: Event) => Overlaps(e, locationId, start, end, exclude, statuses))
  }

  /** An event that began less than three hours before `start` overlaps; one that began exactly three hours before does not. */
  lemma OverlapWindow(e: Event, start: Instant, end: Instant, statuses: seq<EventStatus>)
    requires e.status in statuses && e.eventDate < start
    ensures Overlaps(e, e.locationId, start, end, None, statuses) <==> start - e.eventDate < ASSUMED_DURATION
  {
  }

  /** `WHERE e.id = :eventId` with eager joins: the event with that id, or null. */
  function FindByIdWithAssociations(events: seq<Event>, id: nat): (r: Option<Event>)
    ensures r.None? <==> forall e :: e in events ==> e.id != id
    ensures r.Some? ==> r.value in events && r.value.id == id
  {
    EventById(events, id)
  }
}
