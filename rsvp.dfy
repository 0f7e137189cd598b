/**
 * One-time tokens (`core/models/rsvp.py`). Every link sent by mail carries
 * the code of an RSVP row instead of a real record code; resolving the link
 * looks the row up, checks its age and performs its action.
 */
module Rsvps {
  import opened Wrappers
  import opened Bookings

  /** What resolving the token does. A stored action outside the four known ones is kept as it is. */
  datatype RsvpAction =
    | MagicLink | CollectionInvite | BookingAccept | BookingReject
    | OtherAction(name: string)

  /** A value of the JSON context stored with a token. */
  datatype ContextValue =
    | Text(s: string)
    | TypeTag(t: ThingType)
    | Day(d: int)
    | Count(n: nat)

  datatype Rsvp = Rsvp(
    code: string,
    created: int,
    userCode: string,
    userEmail: string,
    action: RsvpAction,
    targetCode: Option<string>,
    collectionCode: Option<string>,
    context: map<string, ContextValue>)

  /** A token is honoured this many hours after it is minted. */
  const MagicLinkExpiryHours: int := 24

  /** The token is still honoured at `now`, whatever its action. */
  predicate IsValid(r: Rsvp, now: int) {
    now < r.created + MagicLinkExpiryHours * SecondsPerHour
  }

  /** A token minted together with a booking stops being honoured two days before the booking expires. */
  lemma {:induction false} TokenOutlivedByBooking(r: Rsvp, b: Booking, now: int)
    requires r.created == b.created
    ensures IsValid(r, now) ==> now < b.created + BookingExpiryHours * SecondsPerHour - 48 * SecondsPerHour
    ensures IsValid(r, now) ==> (Bookings.IsValid(b, now) <==> b.status == Pending)
  {
  }

  /** A new token with the defaults of the model: a magic link with no target and an empty context. */
  function NewMagicLink(code: string, now: int, userCode: string, userEmail: string): (r: Rsvp)
    ensures r.action == MagicLink && r.targetCode == None && r.collectionCode == None && r.context == map[]
    ensures IsValid(r, now) && !IsValid(r, now + MagicLinkExpiryHours * SecondsPerHour)
  {
    Rsvp(code, now, userCode, userEmail, MagicLink, None, None, map[])
  }

  /** The keys a booking always puts in a token's context. */
  const BaseContextKeys: set<string> := {"thing_code", "thing_type", "requester_code", "requester_email"}

  /**
   * The optional booking fields that are set. A date counts as set whenever it
   * is present; a quantity of 0 counts as unset, as it is falsy.
   */
  function OptionalBookingKeys(b: Booking): (keys: set<string>)
    ensures "start_date" in keys <==> b.startDate.Some?
    ensures "end_date" in keys <==> b.endDate.Some?
    ensures "delivery_date" in keys <==> b.deliveryDate.Some?
    ensures "quantity" in keys <==> b.quantity.Some? && b.quantity.value != 0
    ensures keys <= {"start_date", "end_date", "delivery_date", "quantity"}
  {
    (if b.startDate.Some? then {"start_date"} else {})
    + (if b.endDate.Some? then {"end_date"} else {})
    + (if b.deliveryDate.Some? then {"delivery_date"} else {})
    + (if b.quantity.Some? && b.quantity.value != 0 then {"quantity"} else {})
  }

  /**
   * The context of a booking token, built one key at a time: the thing, its
   * type and the requester always; each date and the quantity only when set.
   */
  method BuildBookingContext(b: Booking) returns (ctx: map<string, ContextValue>)
    ensures ctx == BookingContext(b)
  {
    ctx := map[
      "thing_code" := Text(b.thingCode),
      "thing_type" := TypeTag(b.thingType),
      "requester_code" := Text(b.requesterCode),
      "requester_email" := Text(b.requesterEmail)];
    if b.startDate.Some? {
      ctx := ctx["start_date" := Day(b.startDate.value)];
    }
    if b.endDate.Some? {
      ctx := ctx["end_date" := Day(b.endDate.value)];
    }
    if b.deliveryDate.Some? {
      ctx := ctx["delivery_date" := Day(b.deliveryDate.value)];
    }
    if b.quantity.Some? && b.quantity.value != 0 {
      ctx := ctx["quantity" := Count(b.quantity.value)];
    }
  }

  /** The context `create_for_booking` stores, as a value (the specification of `BuildBookingContext`). */
  function BookingContext(b: Booking): map<string, ContextValue> {
    var base := map[
      "thing_code" := Text(b.thingCode),
      "thing_type" := TypeTag(b.thingType),
      "requester_code" := Text(b.requesterCode),
      "requester_email" := Text(b.requesterEmail)];
    var withStart := if b.startDate.Some? then base["start_date" := Day(b.startDate.value)] else base;
    var withEnd := if b.endDate.Some? then withStart["end_date" := Day(b.endDate.value)] else withStart;
    var withDelivery := if b.deliveryDate.Some? then withEnd["delivery_date" := Day(b.deliveryDate.value)] else withEnd;
    if b.quantity.Some? && b.quantity.value != 0 then withDelivery["quantity" := Count(b.quantity.value)] else withDelivery
  }

  /**
   * A booking token's context always names the thing, its type and the
   * requester, and carries each optional booking field that is set, with the
   * booking's own value.
   */
  lemma ContextCarriesBooking(b: Booking)
    ensures var ctx := BookingContext(b);
      && ctx["thing_code"] == Text(b.thingCode) && ctx["thing_type"] == TypeTag(b.thingType)
      && ctx["requester_code"] == Text(b.requesterCode) && ctx["requester_email"] == Text(b.requesterEmail)
      && ("start_date" in ctx ==> ctx["start_date"] == Day(b.startDate.value))
      && ("end_date" in ctx ==> ctx["end_date"] == Day(b.endDate.value))
      && ("delivery_date" in ctx ==> ctx["delivery_date"] == Day(b.deliveryDate.value))
      && ("quantity" in ctx ==> ctx["quantity"] == Count(b.quantity.value))
  {
  }

  /** The context's keys: the four fixed ones, and an optional booking field's key exactly when that field is set. */
  lemma {:induction false} ContextKeys(b: Booking)
    ensures BookingContext(b).Keys == BaseContextKeys + OptionalBookingKeys(b)
  {
    var start: set<string> := if b.startDate.Some? then {"start_date"} else {};
    var end: set<string> := if b.endDate.Some? then {"end_date"} else {};
    var delivery: set<string> := if b.deliveryDate.Some? then {"delivery_date"} else {};
    var quantity: set<string> := if b.quantity.Some? && b.quantity.value != 0 then {"quantity"} else {};
    assert OptionalBookingKeys(b) == start + end + delivery + quantity;
    var base := map[
      "thing_code" := Text(b.thingCode),
      "thing_type" := TypeTag(b.thingType),
      "requester_code" := Text(b.requesterCode),
      "requester_email" := Text(b.requesterEmail)];
    assert base.Keys == BaseContextKeys;
    var withStart := if b.startDate.Some? then base["start_date" := Day(b.startDate.value)] else base;
    assert withStart.Keys == BaseContextKeys + start;
    var withEnd := if b.endDate.Some? then withStart["end_date" := Day(b.endDate.value)] else withStart;
    assert withEnd.Keys == BaseContextKeys + start + end;
    var withDelivery := if b.deliveryDate.Some? then withEnd["delivery_date" := Day(b.deliveryDate.value)] else withEnd;
    assert withDelivery.Keys == BaseContextKeys + start + end + delivery;
  }

  /**
   * The row `create_for_booking(action, booking, owner_email)` inserts: addressed
   * to the booking's owner, carrying the action and the booking's code.
   */
  function ForBooking(code: string, now: int, action: RsvpAction, b: Booking, ownerEmail: string): (r: Rsvp)
    ensures r.code == code && r.created == now
    ensures r.userCode == b.ownerCode && r.userEmail == ownerEmail
    ensures r.action == action && r.targetCode == Some(b.code) && r.collectionCode == None
    ensures r.context.Keys == BaseContextKeys + OptionalBookingKeys(b)
  {
    ContextKeys(b);
    Rsvp(code, now, b.ownerCode, ownerEmail, action, Some(b.code), None, BookingContext(b))
  }

  /** The tokens table, keyed by token code. */
  class RsvpTable {
    var rows: map<string, Rsvp>

    ghost predicate Valid()
      reads this
    {
      forall k :: k in rows ==> rows[k].code == k
    }

    constructor ()
      ensures Valid() && rows == map[]
    {
      rows := map[];
    }

    /** Inserts a token; a code already in use violates the primary key and nothing is written. */
    method Insert(r: Rsvp) returns (ok: bool)
      requires Valid()
      modifies this
      ensures Valid()
      ensures ok <==> r.code !in old(rows)
      ensures rows == if ok then old(rows)[r.code := r] else old(rows)
    {
      ok := r.code !in rows;
      if ok {
        rows := rows[r.code := r];
      }
    }

    /** `create_for_booking`: builds the context, then inserts the token. */
    method CreateForBooking(code: string, now: int, action: RsvpAction, b: Booking, ownerEmail: string) returns (ok: bool)
      requires Valid()
      modifies this
      ensures Valid()
      ensures ok <==> code !in old(rows)
      ensures rows == if ok then old(rows)[code := ForBooking(code, now, action, b, ownerEmail)] else old(rows)
    {
      var ctx := BuildBookingContext(b);
      ok := Insert(Rsvp(code, now, b.ownerCode, ownerEmail, action, Some(b.code), None, ctx));
    }

    /** `rsvp.delete()` */
    method Delete(code: string)
      requires Valid()
      modifies this
      ensures Valid() && rows == old(rows) - {code}
    {
      rows := rows - {code};
    }
  }
}
