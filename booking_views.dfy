/**
 * The read-only booking endpoints (`core/views/booking.py`): a thing's
 * calendar, the caller's own requests, and the requests for the caller's
 * things. Each only reads the tables, so each is a function of a `State`.
 */
module BookingViews {
  import opened Wrappers
  import opened Lists
  import opened Sorting
  import opened Bookings
  import opened Things
  import opened Database

  /**
   * One calendar entry. The owner's view carries the booking and requester
   * codes; a guest's view carries only the dates and the status.
   */
  datatype CalendarRow =
    | OwnerRow(bookingCode: string, requesterCode: string, startDate: Option<int>, endDate: Option<int>, status: BookingStatus)
    | GuestRow(startDate: Option<int>, endDate: Option<int>, status: BookingStatus)

  /** `BookingPeriodOwnerCalendarSerializer` or `BookingPeriodCalendarSerializer`, by who asks. */
  function RowOf(b: Booking, forOwner: bool): (row: CalendarRow)
    ensures row.OwnerRow? <==> forOwner
    ensures row.startDate == b.startDate && row.endDate == b.endDate && row.status == b.status
    ensures row.OwnerRow? ==> row.bookingCode == b.code && row.requesterCode == b.requesterCode
  {
    if forOwner then OwnerRow(b.code, b.requesterCode, b.startDate, b.endDate, b.status)
    else GuestRow(b.startDate, b.endDate, b.status)
  }

  /** The serialized calendar rows of `periods`, in their order. */
  function Rows(periods: seq<Booking>, forOwner: bool): seq<CalendarRow> {
    seq(|periods|, i requires 0 <= i < |periods| => RowOf(periods[i], forOwner))
  }

  /**
   * `ThingCalendarView.get`: 404 for a missing thing, 403 for a caller who may
   * not see it, otherwise the thing's blocked periods in start-date order,
   * with full rows for its owner and reduced rows for anyone else.
   */
  function Calendar(st: State, thingCode: string, caller: string): (o: (Status, seq<CalendarRow>))
    ensures o.0 in {Ok, NotFound, Forbidden}
    ensures o.0 == NotFound <==> thingCode !in st.things
    ensures o.0 != Ok ==> o.1 == []
    ensures o.0 == Ok ==> |o.1| == |BlockedPeriods(st.bookings, thingCode)|
    ensures o.0 == Ok ==> forall i :: 0 <= i < |o.1| ==>
      o.1[i] == RowOf(BlockedPeriods(st.bookings, thingCode)[i], caller == st.things[thingCode].owner)
  {
    if thingCode !in st.things then (NotFound, [])
    else
      var t := st.things[thingCode];
      if !Things.CanView(t, st.collections, caller) then (Forbidden, [])
      else (Ok, Rows(BlockedPeriods(st.bookings, thingCode), Things.IsOwner(t, caller)))
  }

  /** A calendar row's dates meet the inclusive range `start..end`. */
  predicate RowMeets(row: CalendarRow, start: int, end: int) {
    row.startDate.Some? && row.endDate.Some? && row.startDate.value <= end && row.endDate.value >= start
  }

  /**
   * Who sees what: the answer is 200 exactly for a caller who may see the
   * thing (404 and 403 carry no rows), and only the thing's owner sees which
   * booking and which requester each row is.
   */
  lemma CalendarAccess(st: State, thingCode: string, caller: string)
    ensures var (s, rows) := Calendar(st, thingCode, caller);
      && (s == Ok <==> thingCode in st.things && Things.CanView(st.things[thingCode], st.collections, caller))
      && (s == NotFound <==> thingCode !in st.things)
      && (s != Ok ==> rows == [])
      && (s == Ok ==> forall i :: 0 <= i < |rows| ==> (rows[i].OwnerRow? <==> caller == st.things[thingCode].owner))
  {
  }

  /** Rows keep the start-date order of the periods they come from. */
  lemma {:induction false} RowsFollowStartDates(periods: seq<Booking>, forOwner: bool)
    requires SortedBy(periods, StartDateLe)
    ensures var rows := Rows(periods, forOwner);
      forall i, j :: 0 <= i < j < |rows| && rows[j].startDate.Some? ==>
        rows[i].startDate.Some? && rows[i].startDate.value <= rows[j].startDate.value
  {
    var rows := Rows(periods, forOwner);
    forall i, j | 0 <= i < j < |rows| && rows[j].startDate.Some?
      ensures rows[i].startDate.Some? && rows[i].startDate.value <= rows[j].startDate.value
    {
      assert StartDateLe(periods[i], periods[j]);
    }
  }

  /** Some row meets a range exactly when some period of the thing blocks it. */
  lemma {:induction false} RowsMeetWhenPeriodsBlock(periods: seq<Booking>, forOwner: bool, thingCode: string, start: int, end: int)
    requires forall b :: b in periods ==> BlockedFor(thingCode, b)
    ensures (exists i :: 0 <= i < |Rows(periods, forOwner)| && RowMeets(Rows(periods, forOwner)[i], start, end)) <==>
      (exists b :: b in periods && Blocks(b, thingCode, start, end, None))
  {
    var rows := Rows(periods, forOwner);
    if exists b :: b in periods && Blocks(b, thingCode, start, end, None) {
      var b :| b in periods && Blocks(b, thingCode, start, end, None);
      var i :| 0 <= i < |periods| && periods[i] == b;
      assert RowMeets(rows[i], start, end);
    }
    if exists i :: 0 <= i < |rows| && RowMeets(rows[i], start, end) {
      var i :| 0 <= i < |rows| && RowMeets(rows[i], start, end);
      assert periods[i] in periods && Blocks(periods[i], thingCode, start, end, None);
    }
  }

  /**
   * What the calendar shows: its rows follow start-date order, and a request
   * for a date range is refused with 409 exactly when some row meets the range.
   */
  lemma {:induction false} CalendarShowsAvailability(st: State, thingCode: string, caller: string, start: int, end: int)
    requires Calendar(st, thingCode, caller).0 == Ok
    ensures var rows := Calendar(st, thingCode, caller).1;
      && (forall i, j :: 0 <= i < j < |rows| && rows[j].startDate.Some? ==>
            rows[i].startDate.Some? && rows[i].startDate.value <= rows[j].startDate.value)
      && (HasOverlap(st.bookings, thingCode, start, end, None) <==> exists i :: 0 <= i < |rows| && RowMeets(rows[i], start, end))
  {
    var periods := BlockedPeriods(st.bookings, thingCode);
    var forOwner := Things.IsOwner(st.things[thingCode], caller);
    RowsFollowStartDates(periods, forOwner);
    RowsMeetWhenPeriodsBlock(periods, forOwner, thingCode, start, end);
    OverlapMatchesCalendar(st.bookings, thingCode, start, end, None);
  }

  /** `order_by("-booking_created")`: newest first. */
  predicate NewestFirst(a: Booking, b: Booking) {
    a.created >= b.created
  }

  lemma NewestFirstIsTotal()
    ensures TotalPreorder(NewestFirst)
  {
  }

  /** `MyBookingsView.get`: the caller's own requests, newest first. */
  function MyBookings(st: State, caller: string): (r: seq<Booking>)
    ensures SortedBy(r, NewestFirst)
    ensures forall b :: b in r <==> b in st.bookings && b.requesterCode == caller
    ensures forall b :: multiset(r)[b] == if b.requesterCode == caller then multiset(st.bookings)[b] else 0
  {
    NewestFirstIsTotal();
    var mine := Filter(st.bookings, (b: Booking) => b.requesterCode == caller);
    var r := InsertionSort(mine, NewestFirst);
    assert forall b :: b in r <==> b in multiset(r);
    assert forall b :: b in mine <==> b in multiset(mine);
    r
  }

  /** The codes of the things `user` owns. */
  function OwnedThingCodes(things: map<string, Thing>, user: string): set<string> {
    set k | k in things && things[k].owner == user :: things[k].code
  }

  /** `OwnerBookingsView.get`: every request for a thing the caller owns, newest first. */
  function OwnerBookings(st: State, caller: string): (r: seq<Booking>)
    ensures SortedBy(r, NewestFirst)
    ensures forall b :: b in r <==> b in st.bookings && b.thingCode in OwnedThingCodes(st.things, caller)
    ensures forall b :: multiset(r)[b] == if b.thingCode in OwnedThingCodes(st.things, caller) then multiset(st.bookings)[b] else 0
  {
    NewestFirstIsTotal();
    var owned := OwnedThingCodes(st.things, caller);
    var theirs := Filter(st.bookings, (b: Booking) => b.thingCode in owned);
    var r := InsertionSort(theirs, NewestFirst);
    assert forall b :: b in r <==> b in multiset(r);
    assert forall b :: b in theirs <==> b in multiset(theirs);
    r
  }

  /**
   * With every thing stored under its own code, the owner's list holds exactly
   * the bookings of things that exist and belong to the caller; in particular
   * every request a request view stores for a thing reaches its owner's list.
   */
  lemma {:induction false} OwnerSeesRequestsForTheirThings(st: State, caller: string, b: Booking)
    requires Keyed(st)
    ensures b in OwnerBookings(st, caller) <==>
      b in st.bookings && b.thingCode in st.things && st.things[b.thingCode].owner == caller
  {
    if b.thingCode in OwnedThingCodes(st.things, caller) {
      var k :| k in st.things && st.things[k].owner == caller && st.things[k].code == b.thingCode;
      assert k == b.thingCode;
    }
    if b.thingCode in st.things && st.things[b.thingCode].owner == caller {
      assert st.things[b.thingCode].code == b.thingCode;
    }
  }

  /** A booking appears in its requester's list, and, when its thing exists and is still the owner's, in the owner's list. */
  lemma {:induction false} BookingListedForBothParties(st: State, b: Booking)
    requires Keyed(st) && b in st.bookings
    requires b.thingCode in st.things && st.things[b.thingCode].owner == b.ownerCode
    ensures b in MyBookings(st, b.requesterCode)
    ensures b in OwnerBookings(st, b.ownerCode)
  {
    OwnerSeesRequestsForTheirThings(st, b.ownerCode, b);
  }
}
