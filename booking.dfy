/**
 * The booking record (`core/models/booking.py`): one row per request for a
 * thing, its status machine PENDING -> ACCEPTED | REJECTED | EXPIRED, the
 * validity window, date-range overlap detection, the calendar of blocked
 * periods and the batch sweep that expires stale requests.
 *
 * Timestamps are whole seconds and calendar dates are whole days, both plain
 * integers; the current time is always a parameter.
 */
module Bookings {
  import opened Wrappers
  import opened Lists
  import opened Sorting

  /** The kind of a thing, as stored on the thing and copied onto its bookings. */
  datatype ThingType =
    | GiftThing | SellThing | OrderThing | LendThing | RentThing | ShareThing
    | Unlisted(name: string)  // any other stored string

  const DateBasedTypes: seq<ThingType> := [LendThing, RentThing, ShareThing]
  const SingleUseTypes: seq<ThingType> := [GiftThing, SellThing]
  const RepeatableTypes: seq<ThingType> := [OrderThing]

  predicate IsDateBased(t: ThingType) { t in DateBasedTypes }
  predicate IsSingleUse(t: ThingType) { t in SingleUseTypes }
  predicate IsRepeatable(t: ThingType) { t in RepeatableTypes }

  /** How a request for a thing of a given type is handled. */
  datatype Category = DateBased | SingleUse | Repeatable | Uncategorised

  /**
   * The one category a type belongs to. The three lists are disjoint, so at
   * most one of the category predicates holds; a type on no list (such as an
   * unlisted one) is uncategorised.
   */
  function CategoryOf(t: ThingType): (c: Category)
    ensures c == DateBased <==> IsDateBased(t)
    ensures c == SingleUse <==> IsSingleUse(t)
    ensures c == Repeatable <==> IsRepeatable(t)
    ensures c == Uncategorised <==> !IsDateBased(t) && !IsSingleUse(t) && !IsRepeatable(t)
  {
    match t
    case LendThing | RentThing | ShareThing => DateBased
    case GiftThing | SellThing => SingleUse
    case OrderThing => Repeatable
    case Unlisted(_) => Uncategorised
  }

  datatype BookingStatus = Pending | Accepted | Rejected | Expired

  /** A booking row. Date fields are days; `created` is in seconds. */
  datatype Booking = Booking(
    code: string,
    created: int,
    thingCode: string,
    thingType: ThingType,
    requesterCode: string,
    requesterEmail: string,
    ownerCode: string,
    startDate: Option<int>,
    endDate: Option<int>,
    deliveryDate: Option<int>,
    quantity: Option<nat>,
    status: BookingStatus)

  const SecondsPerHour: int := 3600

  /** A booking request stays open this many hours (the deployment sets no other value). */
  const BookingExpiryHours: int := 72

  /**
   * A booking can still be answered: it is pending and `now` is before its
   * expiry time. A valid booking still blocks its dates and is not one the
   * sweep would expire.
   */
  predicate IsValid(b: Booking, now: int)
    ensures IsValid(b, now) ==> IsBlocking(b.status) && !IsStale(b, now)
  {
    now < b.created + BookingExpiryHours * SecondsPerHour && b.status == Pending
  }

  /** Once a booking is no longer valid, it never becomes valid again later. */
  lemma ValidityIsAWindow(b: Booking, now: int, later: int)
    requires now <= later
    ensures IsValid(b, later) ==> IsValid(b, now)
    ensures b.status == Pending && b.created <= now ==>
      (IsValid(b, now) <==> now - b.created < BookingExpiryHours * SecondsPerHour)
  {
  }

  /** PENDING and ACCEPTED bookings hold their dates; the others release them. */
  predicate IsBlocking(s: BookingStatus) {
    s == Pending || s == Accepted
  }

  /** The booking has dates and its range meets the inclusive range `start..end`. */
  predicate Overlaps(b: Booking, start: int, end: int) {
    && b.startDate.Some? && b.endDate.Some?
    && b.startDate.value <= end && b.endDate.value >= start
  }

  /**
   * Row `b` makes `has_overlap(thingCode, start, end, exclude)` true: same
   * thing, a blocking status, dates meeting the range, and not the excluded
   * code (an empty code excludes nothing). A row without dates never matches,
   * as a comparison with NULL never holds.
   */
  predicate Blocks(b: Booking, thingCode: string, start: int, end: int, exclude: Option<string>) {
    && b.thingCode == thingCode
    && IsBlocking(b.status)
    && Overlaps(b, start, end)
    && !(exclude.Some? && exclude.value != "" && b.code == exclude.value)
  }

  /** Whether some row blocks the requested range. */
  function HasOverlap(rows: seq<Booking>, thingCode: string, start: int, end: int, exclude: Option<string>): (r: bool)
    ensures r <==> exists i :: 0 <= i < |rows| && Blocks(rows[i], thingCode, start, end, exclude)
  {
    if rows == [] then false
    else
      var rest := HasOverlap(rows[1..], thingCode, start, end, exclude);
      assert forall i :: 1 <= i < |rows| ==> rows[i] == rows[1..][i - 1];
      Blocks(rows[0], thingCode, start, end, exclude) || rest
  }

  /** Ranges that share only an end day overlap; a range starting the day after does not. */
  lemma {:induction false} TouchingRangesOverlap(b: Booking)
    requires IsBlocking(b.status) && b.startDate.Some? && b.endDate.Some?
    requires b.startDate.value <= b.endDate.value
    ensures HasOverlap([b], b.thingCode, b.endDate.value, b.endDate.value + 5, None)
    ensures HasOverlap([b], b.thingCode, b.startDate.value - 5, b.startDate.value, None)
    ensures !HasOverlap([b], b.thingCode, b.endDate.value + 1, b.endDate.value + 5, None)
    ensures !HasOverlap([b], b.thingCode, b.startDate.value - 5, b.startDate.value - 1, None)
  {
    assert Blocks([b][0], b.thingCode, b.endDate.value, b.endDate.value + 5, None);
    assert Blocks([b][0], b.thingCode, b.startDate.value - 5, b.startDate.value, None);
  }

  /** A REJECTED or EXPIRED row never blocks anything, whatever its dates. */
  lemma {:induction false} ReleasedRowsNeverBlock(rows: seq<Booking>, i: nat, thingCode: string, start: int, end: int, exclude: Option<string>)
    requires i < |rows| && !IsBlocking(rows[i].status)
    ensures HasOverlap(rows, thingCode, start, end, exclude)
        == HasOverlap(rows[..i] + rows[i + 1..], thingCode, start, end, exclude)
  {
    var dropped := rows[..i] + rows[i + 1..];
    forall k | 0 <= k < |dropped| ensures dropped[k] == rows[if k < i then k else k + 1] { }
    if HasOverlap(rows, thingCode, start, end, exclude) {
      var k :| 0 <= k < |rows| && Blocks(rows[k], thingCode, start, end, exclude);
      assert k != i;
      assert Blocks(dropped[if k < i then k else k - 1], thingCode, start, end, exclude);
    }
  }

  /** No two blocking rows of the same thing have overlapping date ranges. */
  predicate NoDoubleBooking(rows: seq<Booking>) {
    forall i, j :: 0 <= i < |rows| && 0 <= j < |rows| && i != j
      && rows[i].thingCode == rows[j].thingCode
      && IsBlocking(rows[i].status) && IsBlocking(rows[j].status)
      && rows[j].startDate.Some? && rows[j].endDate.Some?
      ==> !Overlaps(rows[i], rows[j].startDate.value, rows[j].endDate.value)
  }

  /** Booking codes are a primary key. */
  predicate UniqueCodes(rows: seq<Booking>) {
    forall i, j :: 0 <= i < j < |rows| ==> rows[i].code != rows[j].code
  }

  /** The row with a given code, if any. */
  function Get(rows: seq<Booking>, code: string): (r: Option<Booking>)
    ensures r.Some? ==> r.value in rows && r.value.code == code
    ensures r.None? <==> forall i :: 0 <= i < |rows| ==> rows[i].code != code
    ensures UniqueCodes(rows) ==> forall i :: 0 <= i < |rows| && rows[i].code == code ==> r == Some(rows[i])
  {
    if rows == [] then None
    else if rows[0].code == code then Some(rows[0])
    else
      var rest := Get(rows[1..], code);
      assert forall i :: 1 <= i < |rows| ==> rows[i] == rows[1..][i - 1];
      rest
  }

  /** The table after `save(update_fields=["status"])` on the row with `code`. */
  function WithStatus(rows: seq<Booking>, code: string, s: BookingStatus): seq<Booking> {
    seq(|rows|, i requires 0 <= i < |rows| => if rows[i].code == code then rows[i].(status := s) else rows[i])
  }

  /**
   * Accepting, rejecting or expiring a booking gives it the new status and
   * changes no other field of it and no other row.
   */
  lemma StatusChangeTouchesOnlyStatus(rows: seq<Booking>, code: string, s: BookingStatus)
    requires UniqueCodes(rows)
    ensures UniqueCodes(WithStatus(rows, code, s))
    ensures Get(WithStatus(rows, code, s), code)
         == (if Get(rows, code).Some? then Some(Get(rows, code).value.(status := s)) else None)
    ensures forall c :: c != code ==> Get(WithStatus(rows, code, s), c) == Get(rows, c)
  {
    var r := WithStatus(rows, code, s);
    assert forall i :: 0 <= i < |r| ==> r[i].code == rows[i].code;
    forall c ensures Get(r, c) == (if c == code && Get(rows, c).Some? then Some(Get(rows, c).value.(status := s)) else Get(rows, c)) {
      if Get(rows, c).Some? {
        var i :| 0 <= i < |rows| && rows[i] == Get(rows, c).value;
        assert r[i].code == c;
      }
    }
  }

  /**
   * Giving a row a status that does not block, or turning a blocking row into
   * another blocking status, keeps the no-double-booking invariant.
   */
  lemma StatusChangeKeepsNoDoubleBooking(rows: seq<Booking>, code: string, s: BookingStatus)
    requires NoDoubleBooking(rows)
    requires IsBlocking(s) ==> forall i :: 0 <= i < |rows| && rows[i].code == code ==> IsBlocking(rows[i].status)
    ensures NoDoubleBooking(WithStatus(rows, code, s))
  {
  }

  /** Appending a row whose range no blocking row of its thing overlaps keeps the invariant. */
  lemma {:induction false} InsertKeepsNoDoubleBooking(rows: seq<Booking>, b: Booking)
    requires NoDoubleBooking(rows)
    requires b.startDate.Some? && b.endDate.Some? ==>
      !HasOverlap(rows, b.thingCode, b.startDate.value, b.endDate.value, None)
    ensures NoDoubleBooking(rows + [b])
  {
    var r := rows + [b];
    forall i, j | 0 <= i < |r| && 0 <= j < |r| && i != j
      && r[i].thingCode == r[j].thingCode
      && IsBlocking(r[i].status) && IsBlocking(r[j].status)
      && r[j].startDate.Some? && r[j].endDate.Some?
      ensures !Overlaps(r[i], r[j].startDate.value, r[j].endDate.value)
    {
      if j == |rows| {
        assert !Blocks(rows[i], b.thingCode, b.startDate.value, b.endDate.value, None);
      } else if i == |rows| && b.startDate.Some? && b.endDate.Some? {
        assert !Blocks(rows[j], b.thingCode, b.startDate.value, b.endDate.value, None);
      }
    }
  }

  /**
   * `order_by("start_date")`: ascending start date, rows without one last.
   * That is PostgreSQL's order, the production database; SQLite, used in
   * development, sorts rows without a start date first instead.
   */
  predicate StartDateLe(a: Booking, b: Booking) {
    match (a.startDate, b.startDate)
    case (Some(x), Some(y)) => x <= y
    case (Some(_), None) => true
    case (None, Some(_)) => false
    case (None, None) => true
  }

  lemma StartDateOrderIsTotal()
    ensures TotalPreorder(StartDateLe)
  {
  }

  predicate BlockedFor(thingCode: string, b: Booking) {
    b.thingCode == thingCode && IsBlocking(b.status)
  }

  /**
   * `get_blocked_periods`: exactly the PENDING and ACCEPTED rows of the thing,
   * each as often as in the table, sorted by start date.
   */
  function BlockedPeriods(rows: seq<Booking>, thingCode: string): (r: seq<Booking>)
    ensures SortedBy(r, StartDateLe)
    ensures forall b :: b in r <==> b in rows && b.thingCode == thingCode && IsBlocking(b.status)
    ensures forall b :: multiset(r)[b] == if BlockedFor(thingCode, b) then multiset(rows)[b] else 0
  {
    StartDateOrderIsTotal();
    var kept := Filter(rows, b => BlockedFor(thingCode, b));
    var r := InsertionSort(kept, StartDateLe);
    assert forall b :: b in r <==> b in multiset(r);
    assert forall b :: b in kept <==> b in multiset(kept);
    r
  }

  /**
   * The calendar and the overlap check agree: a range is blocked exactly when
   * some listed period (other than the excluded code) meets it.
   */
  lemma {:induction false} OverlapMatchesCalendar(rows: seq<Booking>, thingCode: string, start: int, end: int, exclude: Option<string>)
    ensures HasOverlap(rows, thingCode, start, end, exclude) <==>
      exists b :: b in BlockedPeriods(rows, thingCode) && Blocks(b, thingCode, start, end, exclude)
  {
    var cal := BlockedPeriods(rows, thingCode);
    if HasOverlap(rows, thingCode, start, end, exclude) {
      var i :| 0 <= i < |rows| && Blocks(rows[i], thingCode, start, end, exclude);
      assert rows[i] in cal;
    }
    if exists b :: b in cal && Blocks(b, thingCode, start, end, exclude) {
      var b :| b in cal && Blocks(b, thingCode, start, end, exclude);
      var i :| 0 <= i < |rows| && rows[i] == b;
    }
  }

  /** The sweep's cutoff: pending rows created strictly before `now - 72h` are stale. */
  predicate IsStale(b: Booking, now: int) {
    b.status == Pending && b.created < now - BookingExpiryHours * SecondsPerHour
  }

  function SweptRow(b: Booking, now: int): Booking {
    if IsStale(b, now) then b.(status := Expired) else b
  }

  /** The table after `expire_old_pending`. */
  function Swept(rows: seq<Booking>, now: int): seq<Booking> {
    seq(|rows|, i requires 0 <= i < |rows| => SweptRow(rows[i], now))
  }

  /** The positions of the rows the sweep finds stale. */
  function StaleIndices(rows: seq<Booking>, now: int): set<int> {
    set i | 0 <= i < |rows| && IsStale(rows[i], now)
  }

  /** Moving every element of a set of integers up by one keeps its size. */
  lemma {:induction false} ShiftedSize(xs: set<int>)
    ensures |(set x | x in xs :: x + 1)| == |xs|
  {
    if xs != {} {
      if forall y :: y !in xs {
        assert false;
      }
      var x :| x in xs;
      ShiftedSize(xs - {x});
      var ys, zs := set y | y in xs :: y + 1, set y | y in xs - {x} :: y + 1;
      forall z | z in ys ensures z in zs + {x + 1} {
        var y :| y in xs && z == y + 1;
        if y != x { assert y in xs - {x}; }
      }
      assert x + 1 !in zs;
      assert ys == zs + {x + 1};
    }
  }

  /** How many rows the sweep moves: the number of stale rows. */
  function CountStale(rows: seq<Booking>, now: int): (n: nat)
    ensures n == |StaleIndices(rows, now)|
    ensures n <= |rows|
    ensures n == 0 <==> forall i :: 0 <= i < |rows| ==> !IsStale(rows[i], now)
  {
    if rows == [] then
      assert StaleIndices(rows, now) == {};
      0
    else
      var rest := CountStale(rows[1..], now);
      assert forall i :: 1 <= i < |rows| ==> rows[i] == rows[1..][i - 1];
      var tail := StaleIndices(rows[1..], now);
      ShiftedSize(tail);
      var head: set<int> := if IsStale(rows[0], now) then {0} else {};
      var shifted := set x | x in tail :: x + 1;
      forall i | i in StaleIndices(rows, now) ensures i in head + shifted {
        if i > 0 { assert i - 1 in tail; }
      }
      assert StaleIndices(rows, now) == head + shifted;
      assert 0 !in shifted;
      (if IsStale(rows[0], now) then 1 else 0) + rest
  }

  /**
   * The sweep moves only stale PENDING rows, each to EXPIRED with every other
   * field kept; a stale row was no longer valid; a row still valid is untouched;
   * codes stay unique and no double booking appears.
   */
  lemma SweepOnlyExpiresStale(rows: seq<Booking>, now: int)
    ensures |Swept(rows, now)| == |rows|
    ensures forall i :: 0 <= i < |rows| ==>
      Swept(rows, now)[i] == (if IsStale(rows[i], now) then rows[i].(status := Expired) else rows[i])
    ensures forall i :: 0 <= i < |rows| && IsStale(rows[i], now) ==> !IsValid(rows[i], now)
    ensures forall i :: 0 <= i < |rows| && IsValid(rows[i], now) ==> Swept(rows, now)[i] == rows[i]
    ensures UniqueCodes(rows) ==> UniqueCodes(Swept(rows, now))
    ensures NoDoubleBooking(rows) ==> NoDoubleBooking(Swept(rows, now))
  {
  }

  /** A second sweep at the same time finds nothing left to expire. */
  lemma {:induction false} SweepIsIdempotent(rows: seq<Booking>, now: int)
    ensures Swept(Swept(rows, now), now) == Swept(rows, now)
    ensures CountStale(Swept(rows, now), now) == 0
  {
    var r := Swept(rows, now);
    assert forall i :: 0 <= i < |r| ==> !IsStale(r[i], now);
  }

  /** The bookings table. */
  class BookingTable {
    var rows: seq<Booking>

    ghost predicate Valid()
      reads this
    {
      UniqueCodes(rows)
    }

    constructor ()
      ensures Valid() && rows == []
    {
      rows := [];
    }

    /**
     * Inserts a new row. A code that is already taken violates the primary key
     * and nothing is written.
     */
    method Insert(b: Booking) returns (ok: bool)
      requires Valid()
      modifies this
      ensures Valid()
      ensures ok <==> Get(old(rows), b.code).None?
      ensures rows == if ok then old(rows) + [b] else old(rows)
    {
      ok := Get(rows, b.code).None?;
      if ok {
        rows := rows + [b];
      }
    }

    /** `booking.accept()` */
    method Accept(code: string)
      requires Valid()
      modifies this
      ensures Valid() && rows == WithStatus(old(rows), code, Accepted)
    {
      StatusChangeTouchesOnlyStatus(rows, code, Accepted);
      rows := WithStatus(rows, code, Accepted);
    }

    /** `booking.reject()` */
    method Reject(code: string)
      requires Valid()
      modifies this
      ensures Valid() && rows == WithStatus(old(rows), code, Rejected)
    {
      StatusChangeTouchesOnlyStatus(rows, code, Rejected);
      rows := WithStatus(rows, code, Rejected);
    }

    /** `booking.expire()` */
    method Expire(code: string)
      requires Valid()
      modifies this
      ensures Valid() && rows == WithStatus(old(rows), code, Expired)
    {
      StatusChangeTouchesOnlyStatus(rows, code, Expired);
      rows := WithStatus(rows, code, Expired);
    }

    /**
     * `expire_old_pending`: one bulk update that moves every stale PENDING
     * row to EXPIRED and returns how many it moved.
     */
    method ExpireOldPending(now: int) returns (count: nat)
      requires Valid()
      modifies this
      ensures Valid()
      ensures rows == Swept(old(rows), now)
      ensures count == CountStale(old(rows), now)
    {
      SweepOnlyExpiresStale(rows, now);
      count := CountStale(rows, now);
      rows := Swept(rows, now);
    }
  }
}
