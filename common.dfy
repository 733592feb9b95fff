/**
 * Vocabulary shared by the whole model: optional values, the exceptions the
 * services throw (as values), the enumerations of the domain, decimal
 * rendering of numbers, and the two collection helpers every repository
 * query is built from (an order-preserving filter and a stable sort by key).
 */
module Common {

  /** A nullable value of the source (`null` is `None`). */
  datatype Option<T> = None | Some(value: T)

  /** The exceptions thrown by the services, as values. */
  datatype Error =
    | ResourceNotFound(resource: string, field: string)  // ResourceNotFoundException(resource, field, value)
    | NotFound(message: string)                          // ResourceNotFoundException(message)
    | IllegalArgument(message: string)                   // IllegalArgumentException
    | IllegalState(message: string)                      // IllegalStateException
    | UsernameNotFound(message: string)                  // Spring Security's UsernameNotFoundException
    | ConstraintViolation(column: string)                // a unique / not-null column rejected by the database

  /** The outcome of an operation that may throw. */
  datatype Result<T> = Ok(value: T) | Err(error: Error)
  {
    /** The same outcome with the value dropped, for operations that return nothing. */
    function Unit(): (r: Result<()>)
      ensures r.Ok? <==> this.Ok?
      ensures r.Err? ==> r.error == this.error
    {
      if Ok? then Ok(()) else Err(error)
    }
  }

  /** Instants are whole seconds on a common time line. */
  type Instant = int

  const MINUTE: int := 60
  const HOUR: int := 60 * MINUTE

  datatype EventStatus = PENDING | APPROVED | REJECTED | CANCELED

  datatype UserRole = USER | ADMIN

  datatype NotificationType =
    | EVENT_CREATED | EVENT_APPROVED | EVENT_REJECTED | EVENT_CANCELED
    | USER_JOINED | USER_LEFT | EVENT_REMINDER | APPROACHING_DEADLINE
    | NEW_EVENT_PENDING | NEW_MESSAGE | SYSTEM

  /** `Enum.name()` / `toString()` of an event status. */
  function StatusName(s: EventStatus): string
  {
    match s
    case PENDING => "PENDING"
    case APPROVED => "APPROVED"
    case REJECTED => "REJECTED"
    case CANCELED => "CANCELED"
  }

  /** `Enum.name()` of a role. */
  function RoleName(r: UserRole): string
  {
    match r
    case USER => "USER"
    case ADMIN => "ADMIN"
  }

  /** `UserRole.valueOf`: the role whose name is `s`, if any. */
  function ParseRole(s: string): (r: Option<UserRole>)
    ensures r.Some? <==> (s == "USER" || s == "ADMIN")
    ensures r.Some? ==> RoleName(r.value) == s
  {
    if s == "USER" then Some(USER) else if s == "ADMIN" then Some(ADMIN) else None
  }

  predicate IsDigits(s: string)
  {
    forall i :: 0 <= i < |s| ==> '0' <= s[i] <= '9'
  }

  /** Decimal rendering of a natural number, as string concatenation does it. */
  function NatToString(n: nat): (s: string)
    ensures |s| >= 1 && IsDigits(s)
  {
    var d := ['0' + (n % 10) as char];
    if n < 10 then d else NatToString(n / 10) + d
  }

  /** Decimal rendering of an integer (a leading '-' for negatives). */
  function IntToString(i: int): (s: string)
    ensures |s| >= 1
    ensures i >= 0 ==> IsDigits(s)
    ensures i < 0 ==> s[0] == '-'
  {
    if i >= 0 then NatToString(i) else "-" + NatToString(-i)
  }

  /** `k` occurs in `s` at offset `i`. */
  predicate OccursAt(k: string, s: string, i: nat)
  {
    i + |k| <= |s| && s[i..i + |k|] == k
  }

  /** `r` is `s` with some elements left out and the others in their order. */
  ghost predicate IsSubsequence<T>(r: seq<T>, s: seq<T>)
    decreases |s|
  {
    if r == [] then true
    else if s == [] then false
    else (r[0] == s[0] && IsSubsequence(r[1..], s[1..])) || IsSubsequence(r, s[1..])
  }

  /**
   * The elements of `s` satisfying `p`, in their original order: each one as
   * often as it occurs in `s`, and no other.
   */
  function Filter<T(!new)>(s: seq<T>, p: T -> bool): (r: seq<T>)
    ensures |r| <= |s|
    ensures forall x :: x in r <==> x in s && p(x)
    ensures forall i :: 0 <= i < |r| ==> p(r[i])
    ensures forall x :: multiset(r)[x] == if p(x) then multiset(s)[x] else 0
    ensures IsSubsequence(r, s)
  {
    if s == [] then []
    else
      assert s == [s[0]] + s[1..];
      var rest := Filter(s[1..], p);
      if p(s[0]) then
        assert ([s[0]] + rest)[1..] == rest;
        [s[0]] + rest
      else rest
  }

  /** The number of elements of `s` satisfying `p`. */
  function Count<T(!new)>(s: seq<T>, p: T -> bool): (n: nat)
    ensures n <= |s|
    ensures n == 0 <==> forall x :: x in s ==> !p(x)
  {
    if s == [] then 0 else (if p(s[0]) then 1 else 0) + Count(s[1..], p)
  }

  lemma {:induction false} CountIsFilterLength<T(!new)>(s: seq<T>, p: T -> bool)
    ensures Count(s, p) == |Filter(s, p)|
  {
    if s != [] {
      CountIsFilterLength(s[1..], p);
    }
  }

  ghost predicate SortedBy<T>(s: seq<T>, key: T -> int)
  {
    forall i, j :: 0 <= i < j < |s| ==> key(s[i]) <= key(s[j])
  }

  /** Inserts `x` before the first element whose key is not smaller. */
  function InsertBy<T>(x: T, s: seq<T>, key: T -> int): (r: seq<T>)
    ensures multiset(r) == multiset(s) + multiset{x}
    ensures |r| == |s| + 1
    ensures forall k :: 0 <= k < |r| ==> r[k] == x || r[k] in s
  {
    if s == [] || key(x) <= key(s[0]) then [x] + s
    else
      assert s == [s[0]] + s[1..];
      [s[0]] + InsertBy(x, s[1..], key)
  }

  /** Inserting into a sorted sequence keeps it sorted. */
  lemma {:induction false} InsertBySorted<T>(x: T, s: seq<T>, key: T -> int)
    requires SortedBy(s, key)
    ensures SortedBy(InsertBy(x, s, key), key)
  {
    if s == [] || key(x) <= key(s[0]) {
    } else {
      var rest := InsertBy(x, s[1..], key);
      assert SortedBy(s[1..], key);
      InsertBySorted(x, s[1..], key);
      InsertAboveHead(x, s, key);
      ConsSorted(s[0], rest, key);
    }
  }

  /** Every element of the tail with `x` inserted has a key no smaller than the head's. */
  lemma InsertAboveHead<T>(x: T, s: seq<T>, key: T -> int)
    requires SortedBy(s, key) && s != [] && key(s[0]) < key(x)
    ensures forall k :: 0 <= k < |InsertBy(x, s[1..], key)| ==> key(s[0]) <= key(InsertBy(x, s[1..], key)[k])
  {
    var rest := InsertBy(x, s[1..], key);
    forall k | 0 <= k < |rest|
      ensures key(s[0]) <= key(rest[k])
    {
      if rest[k] != x {
        var m :| 0 <= m < |s[1..]| && s[1..][m] == rest[k];
        assert s[1..][m] == s[m + 1];
      }
    }
  }

  /** A head no larger than any element of a sorted tail gives a sorted sequence. */
  lemma ConsSorted<T>(h: T, rest: seq<T>, key: T -> int)
    requires SortedBy(rest, key)
    requires forall k :: 0 <= k < |rest| ==> key(h) <= key(rest[k])
    ensures SortedBy([h] + rest, key)
  {
    var r := [h] + rest;
    forall i, j | 0 <= i < j < |r|
      ensures key(r[i]) <= key(r[j])
    {
      assert r[j] == rest[j - 1];
      if i > 0 {
        assert r[i] == rest[i - 1];
      }
    }
  }

  /** A stable insertion sort of `s` by ascending `key`. */
  function SortBy<T>(s: seq<T>, key: T -> int): (r: seq<T>)
    ensures multiset(r) == multiset(s)
    ensures |r| == |s|
    ensures SortedBy(r, key)
  {
    if s == [] then []
    else
      assert s == [s[0]] + s[1..];
      var rest := SortBy(s[1..], key);
      InsertBySorted(s[0], rest, key);
      InsertBy(s[0], rest, key)
  }

  /** Sorting keeps exactly the elements it was given. */
  lemma SortByMembers<T>(s: seq<T>, key: T -> int)
    ensures forall x :: x in SortBy(s, key) <==> x in s
  {
    var r := SortBy(s, key);
    forall x
      ensures x in r <==> x in s
    {
      assert x in r <==> x in multiset(r);
      assert x in s <==> x in multiset(s);
    }
  }

  /** The position of the first element of `s` satisfying `p`, if any. */
  function FirstIndex<T>(s: seq<T>, p: T -> bool): (r: Option<nat>)
    ensures r.None? <==> forall i :: 0 <= i < |s| ==> !p(s[i])
    ensures r.Some? ==> r.value < |s| && p(s[r.value]) && forall j :: 0 <= j < r.value ==> !p(s[j])
  {
    if s == [] then None
    else if p(s[0]) then Some(0)
    else match FirstIndex(s[1..], p)
      case None => None
      case Some(i) => Some(i + 1)
  }

  /** The first element of `s` satisfying `p`, as a repository's find-one query returns it. */
  function Find<T(!new)>(s: seq<T>, p: T -> bool): (r: Option<T>)
    ensures r.None? <==> forall x :: x in s ==> !p(x)
    ensures r.Some? ==> r.value in s && p(r.value)
  {
    match FirstIndex(s, p)
      case None => None
      case Some(i) => Some(s[i])
  }

  lemma {:induction false} CountAppend<T(!new)>(s: seq<T>, x: T, p: T -> bool)
    ensures Count(s + [x], p) == Count(s, p) + (if p(x) then 1 else 0)
  {
    if s == [] {
      assert s + [x] == [x];
    } else {
      assert (s + [x])[1..] == s[1..] + [x];
      CountAppend(s[1..], x, p);
    }
  }

  lemma {:induction false} FilterConcat<T(!new)>(a: seq<T>, b: seq<T>, p: T -> bool)
    ensures Filter(a + b, p) == Filter(a, p) + Filter(b, p)
  {
    if a == [] {
      assert a + b == b;
    } else {
      assert (a + b)[0] == a[0];
      assert (a + b)[1..] == a[1..] + b;
      FilterConcat(a[1..], b, p);
    }
  }

  lemma {:induction false} CountConcat<T(!new)>(a: seq<T>, b: seq<T>, p: T -> bool)
    ensures Count(a + b, p) == Count(a, p) + Count(b, p)
  {
    if a == [] {
      assert a + b == b;
    } else {
      assert (a + b)[0] == a[0];
      assert (a + b)[1..] == a[1..] + b;
      CountConcat(a[1..], b, p);
    }
  }

  /** Removing an element that `p` rejects leaves the filtered sequence as it was. */
  lemma FilterRemove<T(!new)>(s: seq<T>, i: nat, p: T -> bool)
    requires i < |s| && !p(s[i])
    ensures Filter(s[..i] + s[i + 1..], p) == Filter(s, p)
  {
    var before, rest := s[..i], s[i..];
    assert s == before + rest;
    assert rest[1..] == s[i + 1..];
    FilterConcat(before, rest, p);
    FilterConcat(before, s[i + 1..], p);
  }

  /** Sequences of equal length whose elements `p` judges alike position by position have the same count. */
  lemma {:induction false} CountPointwise<T(!new)>(a: seq<T>, b: seq<T>, p: T -> bool)
    requires |a| == |b|
    requires forall k :: 0 <= k < |a| ==> p(a[k]) == p(b[k])
    ensures Count(a, p) == Count(b, p)
  {
    if a != [] {
      assert forall k :: 0 <= k < |a| - 1 ==> a[1..][k] == a[k + 1] && b[1..][k] == b[k + 1];
      CountPointwise(a[1..], b[1..], p);
    }
  }

  /** Where each element of `s` lands once position `i` is removed. */
  lemma RemoveAtPositions<T>(s: seq<T>, i: nat)
    requires i < |s|
    ensures |s[..i] + s[i + 1..]| == |s| - 1
    ensures forall k :: 0 <= k < i ==> (s[..i] + s[i + 1..])[k] == s[k]
    ensures forall k :: i < k < |s| ==> (s[..i] + s[i + 1..])[k - 1] == s[k]
  {
    var rest := s[..i] + s[i + 1..];
    forall k | 0 <= k < i
      ensures rest[k] == s[k]
    {
      assert rest[k] == s[..i][k];
    }
    forall k | i < k < |s|
      ensures rest[k - 1] == s[k]
    {
      assert rest[k - 1] == s[i + 1..][k - 1 - i];
    }
  }

  /** Removing position `i` of a sequence with distinct keys drops exactly the element with that key. */
  lemma RemoveUniqueKey<T>(s: seq<T>, i: nat, key: T -> int)
    requires i < |s|
    requires forall a, b :: 0 <= a < b < |s| ==> key(s[a]) != key(s[b])
    ensures forall x :: x in s[..i] + s[i + 1..] <==> x in s && key(x) != key(s[i])
  {
    var rest := s[..i] + s[i + 1..];
    forall x | x in rest
      ensures x in s && key(x) != key(s[i])
    {
      var k :| 0 <= k < |rest| && rest[k] == x;
      if k < i {
        assert rest[k] == s[k];
      } else {
        assert rest[k] == s[k + 1];
      }
    }
    forall x | x in s && key(x) != key(s[i])
      ensures x in rest
    {
      var k :| 0 <= k < |s| && s[k] == x;
      if k < i {
        assert rest[k] == x;
      } else {
        assert k != i;
        assert rest[k - 1] == x;
      }
    }
  }

  /** Counting one more element of `s`. */
  lemma CountPrefix<T(!new)>(s: seq<T>, k: nat, p: T -> bool)
    requires k < |s|
    ensures Count(s[..k + 1], p) == Count(s[..k], p) + (if p(s[k]) then 1 else 0)
  {
    assert s[..k + 1] == s[..k] + [s[k]];
    CountAppend(s[..k], s[k], p);
  }

  /** Replacing one element changes the count by what the old and new element contribute. */
  lemma CountUpdate<T(!new)>(s: seq<T>, i: nat, x: T, p: T -> bool)
    requires i < |s|
    ensures Count(s[i := x], p) == Count(s, p) - (if p(s[i]) then 1 else 0) + (if p(x) then 1 else 0)
  {
    var before, after := s[..i], s[i + 1..];
    assert s == (before + [s[i]]) + after;
    assert s[i := x] == (before + [x]) + after;
    CountConcat(before + [s[i]], after, p);
    CountConcat(before, [s[i]], p);
    CountConcat(before + [x], after, p);
    CountConcat(before, [x], p);
    assert Count([s[i]], p) == (if p(s[i]) then 1 else 0);
    assert Count([x], p) == (if p(x) then 1 else 0);
  }

  /** Removing one element lowers the count by what that element contributed. */
  lemma CountRemove<T(!new)>(s: seq<T>, i: nat, p: T -> bool)
    requires i < |s|
    ensures Count(s[..i] + s[i + 1..], p) == Count(s, p) - (if p(s[i]) then 1 else 0)
  {
    var before, rest := s[..i], s[i..];
    assert s == before + rest;
    assert rest[1..] == s[i + 1..];
    CountConcat(before, rest, p);
    CountConcat(before, s[i + 1..], p);
  }
}
