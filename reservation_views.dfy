/**
 * The request endpoint of a thing (`ThingRequestView` in
 * `core/views/reservations.py`). A request passes four guards in order, is
 * routed by the thing's type to the date-based, order or single-use handler,
 * inserts one PENDING booking, and mints the owner's accept and reject tokens.
 *
 * `Request` states the outcome on a `State` value; `ThingRequest` performs it
 * on the tables and is proved to agree with it. Codes for new rows are drawn
 * at random by the application; here they are parameters.
 */
module ReservationViews {
  import opened Wrappers
  import opened Lists
  import opened Bookings
  import opened BookingSerializers
  import opened Rsvps
  import opened Things
  import opened Collections
  import opened Users
  import opened Database

  /** The authenticated caller. */
  datatype Caller = Caller(code: string, email: string)

  /** The request body, field by field. */
  datatype RequestInput = RequestInput(
    startDate: Field<int>,
    endDate: Field<int>,
    deliveryDate: Field<int>,
    quantity: Field<int>)

  /** The codes drawn for the booking and the two tokens a request may insert. */
  datatype NewCodes = NewCodes(booking: string, accept: string, reject: string)

  /**
   * The guards, in order; the first that fails decides the answer: a missing
   * thing is 404, a thing the caller may not see is 403, the owner's own
   * thing is 400, and a thing that is not ACTIVE is 400.
   */
  function RequestGuard(st: State, thingCode: string, caller: Caller): (g: Option<Status>)
    ensures g == Some(NotFound) <==> thingCode !in st.things
    ensures g == Some(Forbidden) <==> thingCode in st.things && !Things.CanView(st.things[thingCode], st.collections, caller.code)
    ensures g == Some(BadRequest) <==>
      && thingCode in st.things && Things.CanView(st.things[thingCode], st.collections, caller.code)
      && (Things.IsOwner(st.things[thingCode], caller.code) || st.things[thingCode].status != Active)
    ensures g.None? <==>
      && thingCode in st.things && Things.CanView(st.things[thingCode], st.collections, caller.code)
      && !Things.IsOwner(st.things[thingCode], caller.code) && st.things[thingCode].status == Active
  {
    if thingCode !in st.things then Some(NotFound)
    else
      var t := st.things[thingCode];
      if !Things.CanView(t, st.collections, caller.code) then Some(Forbidden)
      else if Things.IsOwner(t, caller.code) then Some(BadRequest)
      else if t.status != Active then Some(BadRequest)
      else None
  }

  /** The row `BookingPeriod.objects.create(...)` inserts for this thing and caller. */
  function NewBooking(code: string, now: int, t: Thing, caller: Caller,
                      startDate: Option<int>, endDate: Option<int>,
                      deliveryDate: Option<int>, quantity: Option<nat>): Booking
  {
    Booking(code, now, t.code, t.thingType, caller.code, caller.email, t.owner,
            startDate, endDate, deliveryDate, quantity, Pending)
  }

  /** `_get_owner_email`: the owner's email, or nothing when the owner is missing or has an empty email. */
  function OwnerEmail(users: map<string, User>, owner: string): (e: Option<string>)
    ensures e.Some? <==> owner in users && users[owner].email != ""
    ensures e.Some? ==> e.value == users[owner].email
  {
    if owner in users && users[owner].email != "" then Some(users[owner].email) else None
  }

  /**
   * After the booking is stored: 500 when the owner has no email, otherwise the
   * accept token and then the reject token are inserted (a code already in
   * use fails its insert with 500, keeping what was written) and the answer is 200.
   */
  function MintAndRespond(st: State, b: Booking, now: int, codes: NewCodes): (o: (Status, State))
    ensures o.0 in {Ok, ServerError}
    ensures o.1 == st.(rsvps := o.1.rsvps) && st.rsvps.Keys <= o.1.rsvps.Keys
  {
    match OwnerEmail(st.users, b.ownerCode)
    case None => (ServerError, st)
    case Some(email) =>
      if codes.accept in st.rsvps then (ServerError, st)
      else
        var st1 := st.(rsvps := st.rsvps[codes.accept := ForBooking(codes.accept, now, BookingAccept, b, email)]);
        if codes.reject in st1.rsvps then (ServerError, st1)
        else (Ok, st1.(rsvps := st1.rsvps[codes.reject := ForBooking(codes.reject, now, BookingReject, b, email)]))
  }

  /** `_handle_date_based_request` */
  function DateRequest(st: State, t: Thing, caller: Caller, input: RequestInput, today: int, now: int, codes: NewCodes): (o: (Status, State))
    ensures o.0 in {Ok, BadRequest, Conflict, ServerError}
    ensures o.0 in {BadRequest, Conflict} ==> o.1 == st
    ensures o.1 == st.(bookings := o.1.bookings, rsvps := o.1.rsvps)
    ensures st.bookings <= o.1.bookings && |o.1.bookings| <= |st.bookings| + 1
    ensures st.rsvps.Keys <= o.1.rsvps.Keys
  {
    match ValidateDates(input.startDate, input.endDate, today)
    case Failure(_) => (BadRequest, st)
    case Success(range) =>
      if HasOverlap(st.bookings, t.code, range.0, range.1, None) then (Conflict, st)
      else
        var b := NewBooking(codes.booking, now, t, caller, Some(range.0), Some(range.1), None, None);
        if Get(st.bookings, b.code).Some? then (ServerError, st)
        else MintAndRespond(st.(bookings := st.bookings + [b]), b, now, codes)
  }

  /** `_handle_order_request` */
  function OrderRequest(st: State, t: Thing, caller: Caller, input: RequestInput, today: int, now: int, codes: NewCodes): (o: (Status, State))
    ensures o.0 in {Ok, BadRequest, ServerError}
    ensures o.0 == BadRequest ==> o.1 == st
    ensures o.1 == st.(bookings := o.1.bookings, rsvps := o.1.rsvps)
    ensures st.bookings <= o.1.bookings && |o.1.bookings| <= |st.bookings| + 1
    ensures st.rsvps.Keys <= o.1.rsvps.Keys
  {
    match ValidateOrder(input.deliveryDate, input.quantity, today)
    case Failure(_) => (BadRequest, st)
    case Success(order) =>
      var b := NewBooking(codes.booking, now, t, caller, None, None, Some(order.0), Some(order.1));
      if Get(st.bookings, b.code).Some? then (ServerError, st)
      else MintAndRespond(st.(bookings := st.bookings + [b]), b, now, codes)
  }

  /** The caller already has a PENDING booking for this thing. */
  predicate HasPendingRequest(rows: seq<Booking>, thingCode: string, requester: string) {
    exists i :: 0 <= i < |rows| && rows[i].thingCode == thingCode && rows[i].requesterCode == requester && rows[i].status == Pending
  }

  /** `_handle_standard_request` */
  function StandardRequest(st: State, t: Thing, caller: Caller, now: int, codes: NewCodes): (o: (Status, State))
    ensures o.0 in {Ok, BadRequest, ServerError}
    ensures o.0 == BadRequest <==> HasPendingRequest(st.bookings, t.code, caller.code)
    ensures o.0 == BadRequest ==> o.1 == st
    ensures o.1 == st.(bookings := o.1.bookings, things := o.1.things, rsvps := o.1.rsvps)
    ensures st.bookings <= o.1.bookings && |o.1.bookings| <= |st.bookings| + 1
    ensures st.rsvps.Keys <= o.1.rsvps.Keys
  {
    if HasPendingRequest(st.bookings, t.code, caller.code) then (BadRequest, st)
    else
      var b := NewBooking(codes.booking, now, t, caller, None, None, None, None);
      if Get(st.bookings, b.code).Some? then (ServerError, st)
      else
        var st1 := st.(bookings := st.bookings + [b], things := st.things[t.code := t.(status := Taken)]);
        MintAndRespond(st1, b, now, codes)
  }

  /**
   * `ThingRequestView.post`: the guards, then the handler chosen by the
   * thing's type: date-based types to the date handler, the repeatable type
   * to the order handler, and every other type, listed or not, to the
   * single-use handler.
   */
  function Request(st: State, thingCode: string, caller: Caller, input: RequestInput, today: int, now: int, codes: NewCodes): (o: (Status, State))
    ensures o.0 in {Ok, BadRequest, Forbidden, NotFound, Conflict, ServerError}
    ensures o.0 in {Forbidden, NotFound} ==> o.1 == st
    ensures o.1 == st.(bookings := o.1.bookings, things := o.1.things, rsvps := o.1.rsvps)
    ensures st.bookings <= o.1.bookings && |o.1.bookings| <= |st.bookings| + 1
    ensures st.rsvps.Keys <= o.1.rsvps.Keys
  {
    match RequestGuard(st, thingCode, caller)
    case Some(s) => (s, st)
    case None =>
      var t := st.things[thingCode];
      match CategoryOf(t.thingType)
      case DateBased => DateRequest(st, t, caller, input, today, now, codes)
      case Repeatable => OrderRequest(st, t, caller, input, today, now, codes)
      case _ => StandardRequest(st, t, caller, now, codes)
  }

  // ---------------------------------------------------------------------------
  // Properties of a request

  /** When a guard fails, its answer is returned and nothing is written. */
  lemma GuardFailureWritesNothing(st: State, thingCode: string, caller: Caller, input: RequestInput, today: int, now: int, codes: NewCodes)
    requires RequestGuard(st, thingCode, caller).Some?
    ensures Request(st, thingCode, caller, input, today, now, codes) == (RequestGuard(st, thingCode, caller).value, st)
  {
  }

  /** The tokens a successful request mints: accept then reject, both for the new booking and addressed to its owner. */
  function MintedTokens(st: State, b: Booking, now: int, codes: NewCodes): map<string, Rsvp>
    requires b.ownerCode in st.users
  {
    var email := st.users[b.ownerCode].email;
    st.rsvps[codes.accept := ForBooking(codes.accept, now, BookingAccept, b, email)]
            [codes.reject := ForBooking(codes.reject, now, BookingReject, b, email)]
  }

  /**
   * Minting answers 200 exactly when the owner has an email and both token
   * codes are fresh and distinct; then the two tokens are the only change.
   * Whatever the answer, only the tokens table changes, and only by the two
   * new codes.
   */
  lemma {:induction false} MintOutcome(st: State, b: Booking, now: int, codes: NewCodes)
    ensures var (s, st') := MintAndRespond(st, b, now, codes);
      && (s == Ok <==> OwnerEmail(st.users, b.ownerCode).Some? && codes.accept !in st.rsvps && codes.reject !in st.rsvps && codes.accept != codes.reject)
      && (s == Ok || s == ServerError)
      && st' == st.(rsvps := st'.rsvps)
      && st.rsvps.Keys <= st'.rsvps.Keys <= st.rsvps.Keys + {codes.accept, codes.reject}
      && (forall k :: k in st.rsvps ==> st'.rsvps[k] == st.rsvps[k])
      && (s == Ok ==> st'.rsvps == MintedTokens(st, b, now, codes))
  {
  }

  /** `b` is the row a request by `caller` for `t` inserts: PENDING, under a fresh code, with the thing's and the caller's details. */
  predicate IsRequestRow(b: Booking, rows: seq<Booking>, t: Thing, caller: Caller, now: int, codes: NewCodes) {
    && b.code == codes.booking && Get(rows, b.code).None? && b.created == now && b.status == Pending
    && b.thingCode == t.code && b.thingType == t.thingType && b.ownerCode == t.owner
    && b.requesterCode == caller.code && b.requesterEmail == caller.email
  }

  /**
   * What a request for `t` may write: at most one new booking (appended, and a
   * request row), the thing itself set to TAKEN, and new tokens under the two
   * drawn codes; no other row of any table changes.
   */
  predicate WritesOnlyItsRows(st: State, st': State, t: Thing, caller: Caller, now: int, codes: NewCodes) {
    && st'.users == st.users && st'.collections == st.collections && st'.faqs == st.faqs
    && (st'.bookings == st.bookings ||
          (&& |st'.bookings| == |st.bookings| + 1 && st'.bookings[..|st.bookings|] == st.bookings
           && IsRequestRow(st'.bookings[|st.bookings|], st.bookings, t, caller, now, codes)))
    && (st'.things == st.things || st'.things == st.things[t.code := t.(status := Taken)])
    && (forall k :: k in st.rsvps ==> k in st'.rsvps && st'.rsvps[k] == st.rsvps[k])
    && st'.rsvps.Keys <= st.rsvps.Keys + {codes.accept, codes.reject}
  }

  /** Appending a request row (and, for a single-use thing, marking it TAKEN) and then minting writes only the request's rows. */
  lemma {:induction false} AppendThenMintWritesOnlyItsRows(st: State, b: Booking, taken: bool, t: Thing, caller: Caller, now: int, codes: NewCodes)
    requires IsRequestRow(b, st.bookings, t, caller, now, codes)
    ensures var st1 := st.(bookings := st.bookings + [b], things := if taken then st.things[t.code := t.(status := Taken)] else st.things);
      WritesOnlyItsRows(st, MintAndRespond(st1, b, now, codes).1, t, caller, now, codes)
  {
    var st1 := st.(bookings := st.bookings + [b], things := if taken then st.things[t.code := t.(status := Taken)] else st.things);
    MintOutcome(st1, b, now, codes);
    assert st1.bookings[..|st.bookings|] == st.bookings;
  }

  lemma {:induction false} DateRequestWritesOnlyItsRows(st: State, t: Thing, caller: Caller, input: RequestInput, today: int, now: int, codes: NewCodes)
    ensures WritesOnlyItsRows(st, DateRequest(st, t, caller, input, today, now, codes).1, t, caller, now, codes)
  {
    var v := ValidateDates(input.startDate, input.endDate, today);
    if v.Success? && !HasOverlap(st.bookings, t.code, v.value.0, v.value.1, None) {
      var b := NewBooking(codes.booking, now, t, caller, Some(v.value.0), Some(v.value.1), None, None);
      if Get(st.bookings, b.code).None? {
        AppendThenMintWritesOnlyItsRows(st, b, false, t, caller, now, codes);
        assert DateRequest(st, t, caller, input, today, now, codes)
            == MintAndRespond(st.(bookings := st.bookings + [b], things := st.things), b, now, codes);
        return;
      }
    }
    assert DateRequest(st, t, caller, input, today, now, codes).1 == st;
  }

  lemma {:induction false} OrderRequestWritesOnlyItsRows(st: State, t: Thing, caller: Caller, input: RequestInput, today: int, now: int, codes: NewCodes)
    ensures WritesOnlyItsRows(st, OrderRequest(st, t, caller, input, today, now, codes).1, t, caller, now, codes)
  {
    var v := ValidateOrder(input.deliveryDate, input.quantity, today);
    if v.Success? {
      var b := NewBooking(codes.booking, now, t, caller, None, None, Some(v.value.0), Some(v.value.1));
      if Get(st.bookings, b.code).None? {
        AppendThenMintWritesOnlyItsRows(st, b, false, t, caller, now, codes);
        assert OrderRequest(st, t, caller, input, today, now, codes)
            == MintAndRespond(st.(bookings := st.bookings + [b], things := st.things), b, now, codes);
        return;
      }
    }
    assert OrderRequest(st, t, caller, input, today, now, codes).1 == st;
  }

  lemma {:induction false} StandardRequestWritesOnlyItsRows(st: State, t: Thing, caller: Caller, now: int, codes: NewCodes)
    ensures WritesOnlyItsRows(st, StandardRequest(st, t, caller, now, codes).1, t, caller, now, codes)
  {
    var b := NewBooking(codes.booking, now, t, caller, None, None, None, None);
    if !HasPendingRequest(st.bookings, t.code, caller.code) && Get(st.bookings, b.code).None? {
      AppendThenMintWritesOnlyItsRows(st, b, true, t, caller, now, codes);
    }
  }

  /**
   * A request changes only bookings, things and tokens: it appends at most one
   * booking, which is PENDING and copies the thing's code, type and owner and
   * the caller's code and email; it changes no thing other than the requested
   * one, and that one only to TAKEN; and it changes no existing booking and no
   * existing token.
   */
  lemma {:induction false} RequestWritesOnlyItsRows(st: State, thingCode: string, caller: Caller, input: RequestInput, today: int, now: int, codes: NewCodes)
    requires Keyed(st)
    ensures var st' := Request(st, thingCode, caller, input, today, now, codes).1;
      st' == st || (thingCode in st.things && WritesOnlyItsRows(st, st', st.things[thingCode], caller, now, codes))
    ensures var st' := Request(st, thingCode, caller, input, today, now, codes).1;
      st'.bookings != st.bookings ==> thingCode in st.things && st'.bookings[|st.bookings|].thingCode == thingCode
  {
    if RequestGuard(st, thingCode, caller).None? {
      var t := st.things[thingCode];
      match CategoryOf(t.thingType)
      case DateBased => DateRequestWritesOnlyItsRows(st, t, caller, input, today, now, codes);
      case Repeatable => OrderRequestWritesOnlyItsRows(st, t, caller, input, today, now, codes);
      case _ => StandardRequestWritesOnlyItsRows(st, t, caller, now, codes);
    }
  }

  /** Minting tokens leaves the bookings as they were. */
  lemma MintKeepsBookings(st: State, b: Booking, now: int, codes: NewCodes)
    ensures MintAndRespond(st, b, now, codes).1.bookings == st.bookings
  {
    MintOutcome(st, b, now, codes);
  }

  lemma {:induction false} DateRequestKeepsNoDoubleBooking(st: State, t: Thing, caller: Caller, input: RequestInput, today: int, now: int, codes: NewCodes)
    requires NoDoubleBooking(st.bookings)
    ensures NoDoubleBooking(DateRequest(st, t, caller, input, today, now, codes).1.bookings)
  {
    var v := ValidateDates(input.startDate, input.endDate, today);
    if v.Success? && !HasOverlap(st.bookings, t.code, v.value.0, v.value.1, None) {
      var b := NewBooking(codes.booking, now, t, caller, Some(v.value.0), Some(v.value.1), None, None);
      if Get(st.bookings, b.code).None? {
        MintKeepsBookings(st.(bookings := st.bookings + [b]), b, now, codes);
        InsertKeepsNoDoubleBooking(st.bookings, b);
      }
    }
  }

  lemma {:induction false} OrderRequestKeepsNoDoubleBooking(st: State, t: Thing, caller: Caller, input: RequestInput, today: int, now: int, codes: NewCodes)
    requires NoDoubleBooking(st.bookings)
    ensures NoDoubleBooking(OrderRequest(st, t, caller, input, today, now, codes).1.bookings)
  {
    var v := ValidateOrder(input.deliveryDate, input.quantity, today);
    if v.Success? {
      var b := NewBooking(codes.booking, now, t, caller, None, None, Some(v.value.0), Some(v.value.1));
      if Get(st.bookings, b.code).None? {
        MintKeepsBookings(st.(bookings := st.bookings + [b]), b, now, codes);
        InsertKeepsNoDoubleBooking(st.bookings, b);
      }
    }
  }

  lemma {:induction false} StandardRequestKeepsNoDoubleBooking(st: State, t: Thing, caller: Caller, now: int, codes: NewCodes)
    requires NoDoubleBooking(st.bookings)
    ensures NoDoubleBooking(StandardRequest(st, t, caller, now, codes).1.bookings)
  {
    var b := NewBooking(codes.booking, now, t, caller, None, None, None, None);
    if !HasPendingRequest(st.bookings, t.code, caller.code) && Get(st.bookings, b.code).None? {
      MintKeepsBookings(st.(bookings := st.bookings + [b], things := st.things[t.code := t.(status := Taken)]), b, now, codes);
      InsertKeepsNoDoubleBooking(st.bookings, b);
    }
  }

  /** No request ever lets two blocking bookings of one thing share a day. */
  lemma {:induction false} RequestKeepsNoDoubleBooking(st: State, thingCode: string, caller: Caller, input: RequestInput, today: int, now: int, codes: NewCodes)
    requires NoDoubleBooking(st.bookings)
    ensures NoDoubleBooking(Request(st, thingCode, caller, input, today, now, codes).1.bookings)
  {
    if RequestGuard(st, thingCode, caller).None? {
      var t := st.things[thingCode];
      match CategoryOf(t.thingType)
      case DateBased => DateRequestKeepsNoDoubleBooking(st, t, caller, input, today, now, codes);
      case Repeatable => OrderRequestKeepsNoDoubleBooking(st, t, caller, input, today, now, codes);
      case _ => StandardRequestKeepsNoDoubleBooking(st, t, caller, now, codes);
    }
  }

  /**
   * A date-based request: invalid dates answer 400 and an overlap 409, with
   * nothing written; otherwise one booking with exactly the requested dates
   * is stored, and the thing is never changed. The booking stays stored even
   * when the answer is 500 because the owner has no email, and then no token
   * is minted.
   */
  lemma {:induction false} DateRequestOutcome(st: State, thingCode: string, caller: Caller, input: RequestInput, today: int, now: int, codes: NewCodes)
    requires Keyed(st)
    requires RequestGuard(st, thingCode, caller).None?
    requires IsDateBased(st.things[thingCode].thingType)
    ensures var (s, st') := Request(st, thingCode, caller, input, today, now, codes);
      var v := ValidateDates(input.startDate, input.endDate, today);
      && st'.things == st.things
      && (s == BadRequest <==> v.Failure?)
      && (s == Conflict <==> v.Success? && HasOverlap(st.bookings, thingCode, v.value.0, v.value.1, None))
      && (s == BadRequest || s == Conflict ==> st' == st)
      && (s == Ok ==>
            && |st'.bookings| == |st.bookings| + 1
            && st'.bookings[|st.bookings|].startDate == Some(v.value.0)
            && st'.bookings[|st.bookings|].endDate == Some(v.value.1)
            && st'.bookings[|st.bookings|].deliveryDate.None?)
      && (v.Success? && !HasOverlap(st.bookings, thingCode, v.value.0, v.value.1, None) && Get(st.bookings, codes.booking).None? ==>
            st'.bookings == st.bookings + [NewBooking(codes.booking, now, st.things[thingCode], caller, Some(v.value.0), Some(v.value.1), None, None)])
      && (v.Success? && !HasOverlap(st.bookings, thingCode, v.value.0, v.value.1, None) && Get(st.bookings, codes.booking).None?
          && OwnerEmail(st.users, st.things[thingCode].owner).None? ==>
            s == ServerError && st'.rsvps == st.rsvps)
  {
    var t := st.things[thingCode];
    var v := ValidateDates(input.startDate, input.endDate, today);
    if v.Success? && !HasOverlap(st.bookings, t.code, v.value.0, v.value.1, None) {
      var b := NewBooking(codes.booking, now, t, caller, Some(v.value.0), Some(v.value.1), None, None);
      if Get(st.bookings, b.code).None? {
        MintOutcome(st.(bookings := st.bookings + [b]), b, now, codes);
      }
    }
  }

  /**
   * An order request: an invalid delivery date or quantity answers 400 with
   * nothing written; otherwise one booking with the delivery date and
   * quantity and no date range is stored, and the thing is never changed.
   * The booking stays stored even when the answer is 500 because the owner
   * has no email, and then no token is minted.
   */
  lemma {:induction false} OrderRequestOutcome(st: State, thingCode: string, caller: Caller, input: RequestInput, today: int, now: int, codes: NewCodes)
    requires RequestGuard(st, thingCode, caller).None?
    requires IsRepeatable(st.things[thingCode].thingType)
    ensures var (s, st') := Request(st, thingCode, caller, input, today, now, codes);
      var v := ValidateOrder(input.deliveryDate, input.quantity, today);
      && st'.things == st.things
      && (s == BadRequest <==> v.Failure?)
      && (s == BadRequest ==> st' == st)
      && (s == Ok ==>
            && |st'.bookings| == |st.bookings| + 1
            && st'.bookings[|st.bookings|].deliveryDate == Some(v.value.0)
            && st'.bookings[|st.bookings|].quantity == Some(v.value.1)
            && st'.bookings[|st.bookings|].startDate.None? && st'.bookings[|st.bookings|].endDate.None?)
      && (v.Success? && Get(st.bookings, codes.booking).None? ==>
            st'.bookings == st.bookings + [NewBooking(codes.booking, now, st.things[thingCode], caller, None, None, Some(v.value.0), Some(v.value.1))])
      && (v.Success? && Get(st.bookings, codes.booking).None? && OwnerEmail(st.users, st.things[thingCode].owner).None? ==>
            s == ServerError && st'.rsvps == st.rsvps)
  {
    var t := st.things[thingCode];
    var v := ValidateOrder(input.deliveryDate, input.quantity, today);
    if v.Success? {
      var b := NewBooking(codes.booking, now, t, caller, None, None, Some(v.value.0), Some(v.value.1));
      if Get(st.bookings, b.code).None? {
        MintOutcome(st.(bookings := st.bookings + [b]), b, now, codes);
      }
    }
  }

  /**
   * A request for any other type, including a type on no list: a caller with a
   * pending request for the thing gets 400 and nothing is written; otherwise a
   * booking without dates is stored and the thing becomes TAKEN, and both stay
   * even when the answer is 500 because the owner has no email.
   */
  lemma {:induction false} StandardRequestOutcome(st: State, thingCode: string, caller: Caller, input: RequestInput, today: int, now: int, codes: NewCodes)
    requires Keyed(st)
    requires RequestGuard(st, thingCode, caller).None?
    requires !IsDateBased(st.things[thingCode].thingType) && !IsRepeatable(st.things[thingCode].thingType)
    ensures var (s, st') := Request(st, thingCode, caller, input, today, now, codes);
      && (s == BadRequest <==> HasPendingRequest(st.bookings, thingCode, caller.code))
      && (s == BadRequest ==> st' == st)
      && (s != BadRequest && Get(st.bookings, codes.booking).None? ==>
            && st'.bookings == st.bookings + [NewBooking(codes.booking, now, st.things[thingCode], caller, None, None, None, None)]
            && st'.things == st.things[thingCode := st.things[thingCode].(status := Taken)])
      && (s != BadRequest && Get(st.bookings, codes.booking).None? && OwnerEmail(st.users, st.things[thingCode].owner).None? ==>
            s == ServerError && st'.rsvps == st.rsvps)
  {
    var t := st.things[thingCode];
    var b := NewBooking(codes.booking, now, t, caller, None, None, None, None);
    if !HasPendingRequest(st.bookings, t.code, caller.code) && Get(st.bookings, b.code).None? {
      MintOutcome(st.(bookings := st.bookings + [b], things := st.things[t.code := t.(status := Taken)]), b, now, codes);
    }
  }

  /**
   * A successful request mints exactly two tokens, BOOKING_ACCEPT and
   * BOOKING_REJECT, both targeting the new booking and addressed to the
   * thing's owner; no other token changes.
   */
  lemma {:induction false} SuccessMintsTwoTokens(st: State, thingCode: string, caller: Caller, input: RequestInput, today: int, now: int, codes: NewCodes)
    requires Request(st, thingCode, caller, input, today, now, codes).0 == Ok
    ensures var st' := Request(st, thingCode, caller, input, today, now, codes).1;
      && thingCode in st.things && st.things[thingCode].owner in st.users
      && codes.accept !in st.rsvps && codes.reject !in st.rsvps && codes.accept != codes.reject
      && st'.rsvps.Keys == st.rsvps.Keys + {codes.accept, codes.reject}
      && st'.rsvps[codes.accept].action == BookingAccept && st'.rsvps[codes.reject].action == BookingReject
      && st'.rsvps[codes.accept].targetCode == Some(codes.booking) && st'.rsvps[codes.reject].targetCode == Some(codes.booking)
      && st'.rsvps[codes.accept].userCode == st.things[thingCode].owner
      && st'.rsvps[codes.reject].userCode == st.things[thingCode].owner
  {
    var t := st.things[thingCode];
    var c := CategoryOf(t.thingType);
    if c == DateBased {
      var v := ValidateDates(input.startDate, input.endDate, today);
      var b := NewBooking(codes.booking, now, t, caller, Some(v.value.0), Some(v.value.1), None, None);
      var st1 := st.(bookings := st.bookings + [b]);
      assert Request(st, thingCode, caller, input, today, now, codes) == MintAndRespond(st1, b, now, codes);
      MintedForOwner(st1, b, now, codes);
    } else if c == Repeatable {
      var v := ValidateOrder(input.deliveryDate, input.quantity, today);
      var b := NewBooking(codes.booking, now, t, caller, None, None, Some(v.value.0), Some(v.value.1));
      var st1 := st.(bookings := st.bookings + [b]);
      assert Request(st, thingCode, caller, input, today, now, codes) == MintAndRespond(st1, b, now, codes);
      MintedForOwner(st1, b, now, codes);
    } else {
      var b := NewBooking(codes.booking, now, t, caller, None, None, None, None);
      var st1 := st.(bookings := st.bookings + [b], things := st.things[t.code := t.(status := Taken)]);
      assert Request(st, thingCode, caller, input, today, now, codes) == MintAndRespond(st1, b, now, codes);
      MintedForOwner(st1, b, now, codes);
    }
  }

  /** When minting for `b` answers 200, the two new tokens accept and reject `b` on behalf of its owner. */
  lemma {:induction false} MintedForOwner(st: State, b: Booking, now: int, codes: NewCodes)
    requires MintAndRespond(st, b, now, codes).0 == Ok
    ensures var st' := MintAndRespond(st, b, now, codes).1;
      && b.ownerCode in st.users
      && codes.accept !in st.rsvps && codes.reject !in st.rsvps && codes.accept != codes.reject
      && st'.rsvps.Keys == st.rsvps.Keys + {codes.accept, codes.reject}
      && st'.rsvps[codes.accept].action == BookingAccept && st'.rsvps[codes.reject].action == BookingReject
      && st'.rsvps[codes.accept].targetCode == Some(b.code) && st'.rsvps[codes.reject].targetCode == Some(b.code)
      && st'.rsvps[codes.accept].userCode == b.ownerCode && st'.rsvps[codes.reject].userCode == b.ownerCode
  {
    MintOutcome(st, b, now, codes);
  }

  /**
   * Once a single-use request has stored its booking, the thing is TAKEN, so
   * every later request for it, by anyone, stops at a guard and writes nothing.
   */
  lemma {:induction false} TakenThingRefusesRequests(st: State, thingCode: string, caller: Caller, input: RequestInput, today: int, now: int, codes: NewCodes,
                                                     other: Caller, input2: RequestInput, today2: int, now2: int, codes2: NewCodes)
    requires Keyed(st)
    requires RequestGuard(st, thingCode, caller).None?
    requires !IsDateBased(st.things[thingCode].thingType) && !IsRepeatable(st.things[thingCode].thingType)
    requires Request(st, thingCode, caller, input, today, now, codes).0 != BadRequest
    requires Get(st.bookings, codes.booking).None?
    ensures var st' := Request(st, thingCode, caller, input, today, now, codes).1;
      && RequestGuard(st', thingCode, other).Some?
      && Request(st', thingCode, other, input2, today2, now2, codes2).1 == st'
  {
    StandardRequestOutcome(st, thingCode, caller, input, today, now, codes);
  }

  // ---------------------------------------------------------------------------
  // The view, on the tables

  /** `_get_owner_email` */
  method GetOwnerEmail(db: Db, owner: string) returns (email: Option<string>)
    ensures email == OwnerEmail(db.users.rows, owner)
  {
    if owner in db.users.rows {
      var u := db.users.rows[owner];
      email := if u.email != "" then Some(u.email) else None;
    } else {
      email := None;
    }
  }

  /** The owner lookup and `_send_booking_email`, less the mail itself: mints the accept and reject tokens. */
  method SendBookingEmail(db: Db, b: Booking, now: int, codes: NewCodes) returns (status: Status)
    requires db.Valid()
    modifies db.rsvps
    ensures db.Valid()
    ensures (status, db.Snapshot()) == MintAndRespond(old(db.Snapshot()), b, now, codes)
  {
    var email := GetOwnerEmail(db, b.ownerCode);
    if email.None? {
      return ServerError;
    }
    var ok := db.rsvps.CreateForBooking(codes.accept, now, BookingAccept, b, email.value);
    if !ok {
      return ServerError;
    }
    ok := db.rsvps.CreateForBooking(codes.reject, now, BookingReject, b, email.value);
    if !ok {
      return ServerError;
    }
    status := Ok;
  }

  method HandleDateBasedRequest(db: Db, t: Thing, caller: Caller, input: RequestInput, today: int, now: int, codes: NewCodes) returns (status: Status)
    requires db.Valid()
    modifies db.bookings, db.rsvps
    ensures db.Valid()
    ensures (status, db.Snapshot()) == DateRequest(old(db.Snapshot()), t, caller, input, today, now, codes)
  {
    var v := ValidateDates(input.startDate, input.endDate, today);
    if v.Failure? {
      return BadRequest;
    }
    var (start, end) := v.value;
    if HasOverlap(db.bookings.rows, t.code, start, end, None) {
      return Conflict;
    }
    var b := NewBooking(codes.booking, now, t, caller, Some(start), Some(end), None, None);
    var ok := db.bookings.Insert(b);
    if !ok {
      return ServerError;
    }
    status := SendBookingEmail(db, b, now, codes);
  }

  method HandleOrderRequest(db: Db, t: Thing, caller: Caller, input: RequestInput, today: int, now: int, codes: NewCodes) returns (status: Status)
    requires db.Valid()
    modifies db.bookings, db.rsvps
    ensures db.Valid()
    ensures (status, db.Snapshot()) == OrderRequest(old(db.Snapshot()), t, caller, input, today, now, codes)
  {
    var v := ValidateOrder(input.deliveryDate, input.quantity, today);
    if v.Failure? {
      return BadRequest;
    }
    var (delivery, quantity) := v.value;
    var b := NewBooking(codes.booking, now, t, caller, None, None, Some(delivery), Some(quantity));
    var ok := db.bookings.Insert(b);
    if !ok {
      return ServerError;
    }
    status := SendBookingEmail(db, b, now, codes);
  }

  method HandleStandardRequest(db: Db, t: Thing, caller: Caller, now: int, codes: NewCodes) returns (status: Status)
    requires db.Valid() && t.code in db.things.rows && db.things.rows[t.code] == t
    modifies db.bookings, db.things, db.rsvps
    ensures db.Valid()
    ensures (status, db.Snapshot()) == StandardRequest(old(db.Snapshot()), t, caller, now, codes)
  {
    if HasPendingRequest(db.bookings.rows, t.code, caller.code) {
      return BadRequest;
    }
    var b := NewBooking(codes.booking, now, t, caller, None, None, None, None);
    var ok := db.bookings.Insert(b);
    if !ok {
      return ServerError;
    }
    db.things.Save(t.(status := Taken));
    status := SendBookingEmail(db, b, now, codes);
  }

  /** `ThingRequestView.post` */
  method ThingRequest(db: Db, thingCode: string, caller: Caller, input: RequestInput, today: int, now: int, codes: NewCodes) returns (status: Status)
    requires db.Valid()
    modifies db.bookings, db.things, db.rsvps
    ensures db.Valid()
    ensures (status, db.Snapshot()) == Request(old(db.Snapshot()), thingCode, caller, input, today, now, codes)
  {
    if thingCode !in db.things.rows {
      return NotFound;
    }
    var t := db.things.rows[thingCode];
    if !Things.CanView(t, db.collections.rows, caller.code) {
      return Forbidden;
    }
    if Things.IsOwner(t, caller.code) {
      return BadRequest;
    }
    if t.status != Active {
      return BadRequest;
    }
    if IsDateBased(t.thingType) {
      status := HandleDateBasedRequest(db, t, caller, input, today, now, codes);
    } else if IsRepeatable(t.thingType) {
      status := HandleOrderRequest(db, t, caller, input, today, now, codes);
    } else {
      status := HandleStandardRequest(db, t, caller, now, codes);
    }
  }
}
