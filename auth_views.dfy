/**
 * The link endpoints (`core/views/auth.py`). `RequestLinkView` mints a magic
 * link for an existing user; `VerifyLinkView` resolves any token: it refuses
 * an unknown one, deletes and refuses an expired one, and otherwise runs the
 * handler its action names (a magic link when the action is unknown), which
 * always deletes the token, whatever the outcome.
 *
 * Each view is a function on `State` and a method on the tables proved to
 * agree with it. Logging in, the signed session tokens and the mails are not
 * modelled; the answer is the status code.
 */
module AuthViews {
  import opened Wrappers
  import opened Lists
  import opened Bookings
  import opened Rsvps
  import opened Things
  import opened Collections
  import opened Users
  import opened Database

  // ---------------------------------------------------------------------------
  // Requesting a link

  /** No two users share an email (a unique column). */
  predicate UniqueEmails(users: map<string, User>) {
    forall k, k' :: k in users && k' in users && users[k].email == users[k'].email ==> k == k'
  }

  /** `User.objects.get(user_email=email)`: the key of the one user with that email, if any. */
  function UserWithEmail(users: map<string, User>, email: string): (r: Option<string>)
    requires UniqueEmails(users)
    ensures r.Some? <==> exists k :: k in users && users[k].email == email
    ensures r.Some? ==> r.value in users && users[r.value].email == email
  {
    if exists k :: k in users && users[k].email == email then
      var k :| k in users && users[k].email == email; Some(k)
    else None
  }

  /**
   * `RequestLinkView.post` for an email already lower-cased: no user with it
   * is 404 and nothing is written; otherwise a magic link for that user is
   * stored (a code already in use is 500) and the answer is 200.
   */
  function RequestLink(st: State, email: string, code: string, now: int): (o: (Status, State))
    requires UniqueEmails(st.users)
    ensures o.0 in {Ok, NotFound, ServerError}
    ensures o.0 == NotFound <==> UserWithEmail(st.users, email).None?
    ensures o.0 != Ok ==> o.1 == st
    ensures o.1 == st.(rsvps := o.1.rsvps) && st.rsvps.Keys <= o.1.rsvps.Keys
  {
    match UserWithEmail(st.users, email)
    case None => (NotFound, st)
    case Some(k) =>
      if code in st.rsvps then (ServerError, st)
      else (Ok, st.(rsvps := st.rsvps[code := NewMagicLink(code, now, st.users[k].code, email)]))
  }

  /**
   * A link is minted exactly for an email that belongs to a user; the new token
   * is a magic link for that user, honoured for 24 hours, and nothing else changes.
   */
  lemma RequestLinkOutcome(st: State, email: string, code: string, now: int)
    requires UniqueEmails(st.users) && Keyed(st) && code !in st.rsvps
    ensures var (s, st') := RequestLink(st, email, code, now);
      && (s == Ok <==> exists k :: k in st.users && st.users[k].email == email)
      && (s == NotFound <==> !exists k :: k in st.users && st.users[k].email == email)
      && (s == NotFound ==> st' == st)
      && (s == Ok ==>
            && st' == st.(rsvps := st'.rsvps)
            && st'.rsvps.Keys == st.rsvps.Keys + {code}
            && (forall k :: k in st.rsvps ==> st'.rsvps[k] == st.rsvps[k])
            && st'.rsvps[code].action == MagicLink
            && st'.rsvps[code].userCode in st.users && st.users[st'.rsvps[code].userCode].email == email
            && Rsvps.IsValid(st'.rsvps[code], now)
            && !Rsvps.IsValid(st'.rsvps[code], now + MagicLinkExpiryHours * SecondsPerHour))
  {
  }

  /** The user lookup, as a search over the table's keys. */
  method FindUserByEmail(users: map<string, User>, email: string) returns (r: Option<string>)
    requires UniqueEmails(users)
    ensures r == UserWithEmail(users, email)
  {
    var keys := users.Keys;
    while keys != {}
      invariant keys <= users.Keys
      invariant forall k :: k in users && k !in keys ==> users[k].email != email
      decreases |keys|
    {
      var k :| k in keys;
      if users[k].email == email {
        return Some(k);
      }
      keys := keys - {k};
    }
    return None;
  }

  /** `RequestLinkView.post`, less the rate limit and the mail. */
  method RequestLinkView(db: Db, email: string, code: string, now: int) returns (status: Status)
    requires db.Valid()
    modifies db.rsvps
    ensures db.Valid()
    ensures UniqueEmails(old(db.users.rows))
    ensures (status, db.Snapshot()) == RequestLink(old(db.Snapshot()), email, code, now)
  {
    var k := FindUserByEmail(db.users.rows, email);
    if k.None? {
      return NotFound;
    }
    var u := db.users.rows[k.value];
    var ok := db.rsvps.Insert(NewMagicLink(code, now, u.code, email));
    status := if ok then Ok else ServerError;
  }

  // ---------------------------------------------------------------------------
  // Resolving a token

  /** `_handle_magic_link`: the user's last activity becomes today; a token for a missing user is 401. */
  function MagicLinkOutcome(st: State, r: Rsvp, today: int): (o: (Status, State))
    ensures o.0 in {Ok, Unauthorized}
    ensures o.0 == Unauthorized <==> r.userCode !in st.users
    ensures o.0 != Ok ==> o.1 == st
    ensures o.1 == st.(users := o.1.users) && o.1.users.Keys == st.users.Keys
  {
    if r.userCode !in st.users then (Unauthorized, st)
    else (Ok, st.(users := st.users[r.userCode := st.users[r.userCode].(lastActivity := today)]))
  }

  /**
   * `_handle_collection_invite`: as a magic link, and when the token names a
   * collection that still exists, the user joins its invites and the
   * collection joins the user's shared collections. A vanished collection is
   * ignored.
   */
  function InviteOutcome(st: State, r: Rsvp, today: int): (o: (Status, State))
    ensures o.0 in {Ok, Unauthorized}
    ensures o.0 == Unauthorized <==> r.userCode !in st.users
    ensures o.0 != Ok ==> o.1 == st
    ensures o.1 == st.(users := o.1.users, collections := o.1.collections)
    ensures o.1.users.Keys == st.users.Keys && o.1.collections.Keys == st.collections.Keys
  {
    if r.userCode !in st.users then (Unauthorized, st)
    else
      var u := st.users[r.userCode].(lastActivity := today);
      if r.collectionCode.Some? && r.collectionCode.value != "" && r.collectionCode.value in st.collections then
        var c := r.collectionCode.value;
        (Ok, st.(collections := st.collections[c := WithInvite(st.collections[c], u.code)],
                 users := st.users[r.userCode := u.(sharedCollections := AppendIfAbsent(u.sharedCollections, c))]))
      else (Ok, st.(users := st.users[r.userCode := u]))
  }

  /** The booking a token targets, if the token has a target and the booking exists. */
  function TargetBooking(st: State, r: Rsvp): (b: Option<Booking>)
    ensures b.Some? ==> r.targetCode.Some? && b.value in st.bookings && b.value.code == r.targetCode.value
    ensures b.None? <==> r.targetCode.None? || Get(st.bookings, r.targetCode.value).None?
  {
    if r.targetCode.None? then None else Get(st.bookings, r.targetCode.value)
  }

  /** The thing after a single-use booking of it is accepted: INACTIVE, unavailable, with the requester in the deal. */
  function AcceptedThing(t: Thing, requester: string): (r: Thing)
    ensures r.status == Inactive && !r.available && requester in r.deal
    ensures forall u :: u in r.deal <==> u in t.deal || u == requester
    ensures r == t.(status := r.status, available := r.available, deal := r.deal)
    ensures Things.Valid(t) ==> Things.Valid(r)
  {
    t.(status := Inactive, available := false, deal := AppendIfAbsent(t.deal, requester))
  }

  /**
   * `_handle_booking_accept`: a missing booking is 404, a booking no longer
   * valid is 400, a missing thing is 404; otherwise the booking becomes
   * ACCEPTED and, for a single-use type, the thing is taken off the market.
   */
  function AcceptOutcome(st: State, r: Rsvp, now: int): (o: (Status, State))
    ensures o.0 in {Ok, NotFound, BadRequest}
    ensures o.0 == NotFound <==>
      TargetBooking(st, r).None? || (Bookings.IsValid(TargetBooking(st, r).value, now) && TargetBooking(st, r).value.thingCode !in st.things)
    ensures o.0 != Ok ==> o.1 == st
    ensures o.1 == st.(bookings := o.1.bookings, things := o.1.things)
    ensures |o.1.bookings| == |st.bookings| && o.1.things.Keys == st.things.Keys
  {
    match TargetBooking(st, r)
    case None => (NotFound, st)
    case Some(b) =>
      if !Bookings.IsValid(b, now) then (BadRequest, st)
      else if b.thingCode !in st.things then (NotFound, st)
      else
        var st1 := st.(bookings := WithStatus(st.bookings, b.code, Accepted));
        if IsSingleUse(b.thingType) then
          (Ok, st1.(things := st.things[b.thingCode := AcceptedThing(st.things[b.thingCode], b.requesterCode)]))
        else (Ok, st1)
  }

  /**
   * `_handle_booking_reject`: the same checks; otherwise the booking becomes
   * REJECTED and, for a single-use type, the thing is ACTIVE again.
   */
  function RejectOutcome(st: State, r: Rsvp, now: int): (o: (Status, State))
    ensures o.0 in {Ok, NotFound, BadRequest}
    ensures o.0 == NotFound <==>
      TargetBooking(st, r).None? || (Bookings.IsValid(TargetBooking(st, r).value, now) && TargetBooking(st, r).value.thingCode !in st.things)
    ensures o.0 != Ok ==> o.1 == st
    ensures o.1 == st.(bookings := o.1.bookings, things := o.1.things)
    ensures |o.1.bookings| == |st.bookings| && o.1.things.Keys == st.things.Keys
  {
    match TargetBooking(st, r)
    case None => (NotFound, st)
    case Some(b) =>
      if !Bookings.IsValid(b, now) then (BadRequest, st)
      else if b.thingCode !in st.things then (NotFound, st)
      else
        var st1 := st.(bookings := WithStatus(st.bookings, b.code, Rejected));
        if IsSingleUse(b.thingType) then
          (Ok, st1.(things := st.things[b.thingCode := st.things[b.thingCode].(status := Active)]))
        else (Ok, st1)
  }

  /** The token's handler, chosen by its action; an unknown action is treated as a magic link. */
  function Dispatch(st: State, r: Rsvp, now: int, today: int): (Status, State) {
    match r.action
    case CollectionInvite => InviteOutcome(st, r, today)
    case BookingAccept => AcceptOutcome(st, r, now)
    case BookingReject => RejectOutcome(st, r, now)
    case _ => MagicLinkOutcome(st, r, today)
  }

  /**
   * `VerifyLinkView.get`: an unknown code is 401 and nothing is written; an
   * expired token is deleted and the answer is 401; otherwise the handler runs
   * and the token is deleted.
   */
  function VerifyLink(st: State, code: string, now: int, today: int): (o: (Status, State))
    ensures o.0 in {Ok, Unauthorized, NotFound, BadRequest}
    ensures o.0 != Ok && code in st.rsvps && Rsvps.IsValid(st.rsvps[code], now) ==> o.1 == st.(rsvps := st.rsvps - {code})
    ensures o.1.rsvps == st.rsvps - {code} && o.1.faqs == st.faqs
  {
    if code !in st.rsvps then (Unauthorized, st)
    else
      var r := st.rsvps[code];
      if !Rsvps.IsValid(r, now) then (Unauthorized, st.(rsvps := st.rsvps - {code}))
      else
        var (s, st1) := Dispatch(st, r, now, today);
        (s, st1.(rsvps := st1.rsvps - {code}))
  }

  // ---------------------------------------------------------------------------
  // Properties of resolving a token

  /** Handlers never write the tokens table. */
  lemma DispatchKeepsTokens(st: State, r: Rsvp, now: int, today: int)
    ensures Dispatch(st, r, now, today).1.rsvps == st.rsvps
  {
  }

  /**
   * Every token is single-use: resolving a known code deletes exactly that
   * token, whatever the answer, and an unknown code is 401 with nothing written.
   */
  lemma VerifyConsumesToken(st: State, code: string, now: int, today: int)
    ensures var (s, st') := VerifyLink(st, code, now, today);
      && (code !in st.rsvps ==> s == Unauthorized && st' == st)
      && (code in st.rsvps ==> st'.rsvps == st.rsvps - {code})
  {
    if code in st.rsvps {
      DispatchKeepsTokens(st, st.rsvps[code], now, today);
    }
  }

  /** Resolving the same code twice: the second time is 401 and writes nothing. */
  lemma {:induction false} SecondUseRefused(st: State, code: string, now: int, today: int, now2: int, today2: int)
    ensures var st' := VerifyLink(st, code, now, today).1;
      VerifyLink(st', code, now2, today2) == (Unauthorized, st')
  {
    VerifyConsumesToken(st, code, now, today);
  }

  /**
   * A token resolved 24 hours or more after it was minted is refused with 401
   * and only the token is deleted; this holds for the tokens of a booking too,
   * which thus lapse two days before the booking itself would.
   */
  lemma {:induction false} LateTokenRefused(st: State, code: string, now: int, today: int)
    requires code in st.rsvps && st.rsvps[code].created + MagicLinkExpiryHours * SecondsPerHour <= now
    ensures VerifyLink(st, code, now, today) == (Unauthorized, st.(rsvps := st.rsvps - {code}))
  {
  }

  /**
   * Every refusal of a live token by the booking handlers (404 for a missing
   * target or thing, 400 for a booking already decided or expired) deletes
   * the token and writes nothing else.
   */
  lemma BookingRefusalOnlyConsumes(st: State, code: string, now: int, today: int)
    requires code in st.rsvps && (st.rsvps[code].action == BookingAccept || st.rsvps[code].action == BookingReject)
    ensures var (s, st') := VerifyLink(st, code, now, today);
      s != Ok ==> st' == st.(rsvps := st.rsvps - {code})
    ensures var (s, st') := VerifyLink(st, code, now, today);
      s in {Ok, Unauthorized, NotFound, BadRequest}
  {
  }

  /**
   * A magic link that succeeds changes only the user's last activity (and
   * deletes the token); one for a user who no longer exists is 401.
   */
  lemma MagicLinkTouchesOnlyActivity(st: State, code: string, now: int, today: int)
    requires code in st.rsvps && Rsvps.IsValid(st.rsvps[code], now) && st.rsvps[code].action == MagicLink
    ensures var (s, st') := VerifyLink(st, code, now, today);
      var u := st.rsvps[code].userCode;
      && (s == Ok <==> u in st.users)
      && (s == Ok ==> st' == st.(users := st.users[u := st.users[u].(lastActivity := today)], rsvps := st.rsvps - {code}))
      && (s != Ok ==> s == Unauthorized && st' == st.(rsvps := st.rsvps - {code}))
  {
  }

  /**
   * Accepting an invitation to an existing collection makes the user able to
   * view it and records it among the user's shared collections, without
   * duplicating either entry.
   */
  lemma {:induction false} InviteGrantsView(st: State, code: string, now: int, today: int)
    requires code in st.rsvps && Rsvps.IsValid(st.rsvps[code], now) && st.rsvps[code].action == CollectionInvite
    requires Keyed(st)
    requires var r := st.rsvps[code];
      r.userCode in st.users && r.collectionCode.Some? && r.collectionCode.value != "" && r.collectionCode.value in st.collections
    requires Collections.Valid(st.collections[st.rsvps[code].collectionCode.value])
    requires NoDup(st.users[st.rsvps[code].userCode].sharedCollections)
    ensures var (s, st') := VerifyLink(st, code, now, today);
      var r := st.rsvps[code];
      var c := r.collectionCode.value;
      && s == Ok
      && c in st'.collections && Collections.CanView(st'.collections[c], r.userCode)
      && Collections.Valid(st'.collections[c])
      && c in st'.users[r.userCode].sharedCollections
      && NoDup(st'.users[r.userCode].sharedCollections)
      && st'.users[r.userCode].lastActivity == today
  {
    var r := st.rsvps[code];
    var c := r.collectionCode.value;
    ViewRequiresOwnershipOrInvite(st.collections[c], r.userCode);
  }

  /**
   * Accepting a valid booking makes it ACCEPTED; for a single-use thing the
   * thing becomes its `AcceptedThing` image (INACTIVE, unavailable, the
   * requester in its deal) and no other thing changes; bookings of any other
   * type leave the things as they were.
   */
  lemma {:induction false} AcceptEffects(st: State, code: string, now: int, today: int)
    requires code in st.rsvps && st.rsvps[code].action == BookingAccept
    requires UniqueCodes(st.bookings)
    requires VerifyLink(st, code, now, today).0 == Ok
    ensures var st' := VerifyLink(st, code, now, today).1;
      var b := TargetBooking(st, st.rsvps[code]).value;
      && Bookings.IsValid(b, now) && b.thingCode in st.things
      && Get(st'.bookings, b.code) == Some(b.(status := Accepted))
      && (IsSingleUse(b.thingType) ==>
            && st'.things == st.things[b.thingCode := AcceptedThing(st.things[b.thingCode], b.requesterCode)]
            && (Things.Valid(st.things[b.thingCode]) ==> Things.Valid(st'.things[b.thingCode])))
      && (!IsSingleUse(b.thingType) ==> st'.things == st.things)
      && st'.users == st.users && st'.collections == st.collections && st'.faqs == st.faqs
  {
    var b := TargetBooking(st, st.rsvps[code]).value;
    StatusChangeTouchesOnlyStatus(st.bookings, b.code, Accepted);
  }

  /**
   * Rejecting a valid booking makes it REJECTED and puts a single-use thing
   * back on the market (ACTIVE), undoing what its request did.
   */
  lemma {:induction false} RejectEffects(st: State, code: string, now: int, today: int)
    requires code in st.rsvps && st.rsvps[code].action == BookingReject
    requires UniqueCodes(st.bookings)
    requires VerifyLink(st, code, now, today).0 == Ok
    ensures var st' := VerifyLink(st, code, now, today).1;
      var b := TargetBooking(st, st.rsvps[code]).value;
      && Bookings.IsValid(b, now) && b.thingCode in st.things
      && Get(st'.bookings, b.code) == Some(b.(status := Rejected))
      && (IsSingleUse(b.thingType) ==> st'.things == st.things[b.thingCode := st.things[b.thingCode].(status := Active)])
      && (!IsSingleUse(b.thingType) ==> st'.things == st.things)
      && st'.users == st.users && st'.collections == st.collections && st'.faqs == st.faqs
  {
    var b := TargetBooking(st, st.rsvps[code]).value;
    StatusChangeTouchesOnlyStatus(st.bookings, b.code, Rejected);
  }

  /**
   * Resolving a token leaves the bookings table alone, except that a token
   * for a booking may set that booking's status to ACCEPTED or REJECTED.
   */
  lemma {:induction false} VerifyRewritesOnlyAStatus(st: State, code: string, now: int, today: int)
    ensures var st' := VerifyLink(st, code, now, today).1;
      || st'.bookings == st.bookings
      || (&& code in st.rsvps && TargetBooking(st, st.rsvps[code]).Some?
          && var b := TargetBooking(st, st.rsvps[code]).value;
             && Bookings.IsValid(b, now)
             && (|| (st.rsvps[code].action == BookingAccept && st'.bookings == WithStatus(st.bookings, b.code, Accepted))
             || (st.rsvps[code].action == BookingReject && st'.bookings == WithStatus(st.bookings, b.code, Rejected))))
  {
    if code in st.rsvps && Rsvps.IsValid(st.rsvps[code], now) {
      var r := st.rsvps[code];
      var st1 := Dispatch(st, r, now, today).1;
      assert VerifyLink(st, code, now, today).1.bookings == st1.bookings;
    }
  }

  /** Resolving any token keeps any two blocking bookings of a thing from sharing a day. */
  lemma {:induction false} VerifyKeepsNoDoubleBooking(st: State, code: string, now: int, today: int)
    requires UniqueCodes(st.bookings) && NoDoubleBooking(st.bookings)
    ensures NoDoubleBooking(VerifyLink(st, code, now, today).1.bookings)
  {
    VerifyRewritesOnlyAStatus(st, code, now, today);
    var st' := VerifyLink(st, code, now, today).1;
    if st'.bookings != st.bookings {
      var b := TargetBooking(st, st.rsvps[code]).value;
      var s := if st.rsvps[code].action == BookingAccept then Accepted else Rejected;
      assert forall i :: 0 <= i < |st.bookings| && st.bookings[i].code == b.code ==> st.bookings[i] == b;
      StatusChangeKeepsNoDoubleBooking(st.bookings, b.code, s);
    }
  }

  /**
   * The owner's two tokens for one booking exclude each other: once either has
   * decided the booking, the other is refused with 400 and writes nothing but
   * its own deletion.
   */
  lemma {:induction false} DecisionIsFinal(st: State, code: string, other: string, now: int, today: int, now2: int, today2: int)
    requires UniqueCodes(st.bookings)
    requires code in st.rsvps && other in st.rsvps && code != other
    requires st.rsvps[code].action in {BookingAccept, BookingReject}
    requires st.rsvps[other].action in {BookingAccept, BookingReject}
    requires st.rsvps[other].targetCode == st.rsvps[code].targetCode
    requires VerifyLink(st, code, now, today).0 == Ok
    requires Rsvps.IsValid(st.rsvps[other], now2)
    ensures var st' := VerifyLink(st, code, now, today).1;
      VerifyLink(st', other, now2, today2) == (BadRequest, st'.(rsvps := st'.rsvps - {other}))
  {
    var r := st.rsvps[code];
    var b := TargetBooking(st, r).value;
    var st' := VerifyLink(st, code, now, today).1;
    if r.action == BookingAccept {
      AcceptEffects(st, code, now, today);
    } else {
      RejectEffects(st, code, now, today);
    }
    assert st'.rsvps == st.rsvps - {code};
    assert st'.rsvps[other] == st.rsvps[other];
    DecidedBookingRefused(st', other, now2, today2);
  }

  /** A token whose booking is no longer PENDING is refused with 400, and only the token goes. */
  lemma {:induction false} DecidedBookingRefused(st: State, code: string, now: int, today: int)
    requires code in st.rsvps && st.rsvps[code].action in {BookingAccept, BookingReject}
    requires Rsvps.IsValid(st.rsvps[code], now)
    requires TargetBooking(st, st.rsvps[code]).Some? && TargetBooking(st, st.rsvps[code]).value.status != Pending
    ensures VerifyLink(st, code, now, today) == (BadRequest, st.(rsvps := st.rsvps - {code}))
  {
  }

  /** Resolving a token keeps booking codes unique. */
  lemma {:induction false} VerifyKeepsNoDoubleBookingCodes(st: State, code: string, now: int, today: int)
    requires UniqueCodes(st.bookings)
    ensures UniqueCodes(VerifyLink(st, code, now, today).1.bookings)
  {
    VerifyRewritesOnlyAStatus(st, code, now, today);
    var st' := VerifyLink(st, code, now, today).1;
    if st'.bookings != st.bookings {
      var b := TargetBooking(st, st.rsvps[code]).value;
      var s := if st.rsvps[code].action == BookingAccept then Accepted else Rejected;
      StatusChangeTouchesOnlyStatus(st.bookings, b.code, s);
    }
  }

  /** The keys of the answer to an accepted booking. */
  const BaseAcceptResponseKeys: set<string> := {"action", "message", "thing_headline"}

  /**
   * The keys of the answer to an accepted booking: the three fixed keys and
   * each optional booking field that is set, by the same truthiness rule as
   * the token's context.
   */
  function AcceptResponseKeys(b: Booking): (keys: set<string>)
    ensures "start_date" in keys <==> b.startDate.Some?
    ensures "end_date" in keys <==> b.endDate.Some?
    ensures "delivery_date" in keys <==> b.deliveryDate.Some?
    ensures "quantity" in keys <==> b.quantity.Some? && b.quantity.value != 0
  {
    BaseAcceptResponseKeys
      + (if b.startDate.Some? then {"start_date"} else {})
      + (if b.endDate.Some? then {"end_date"} else {})
      + (if b.deliveryDate.Some? then {"delivery_date"} else {})
      + (if b.quantity.Some? && b.quantity.value != 0 then {"quantity"} else {})
  }

  /** The answer to an accept reports exactly the optional booking fields its token's context carried. */
  lemma AcceptResponseEchoesToken(code: string, now: int, b: Booking, email: string)
    ensures var r := ForBooking(code, now, BookingAccept, b, email);
      AcceptResponseKeys(b) - BaseAcceptResponseKeys == r.context.Keys - BaseContextKeys
  {
    var keys := OptionalBookingKeys(b);
    assert AcceptResponseKeys(b) == BaseAcceptResponseKeys + keys;
    assert BaseAcceptResponseKeys !! keys && BaseContextKeys !! keys;
  }

  // ---------------------------------------------------------------------------
  // The view, on the tables

  method HandleMagicLink(db: Db, r: Rsvp, today: int) returns (status: Status)
    requires db.Valid()
    modifies db.users
    ensures db.Valid()
    ensures (status, db.Snapshot()) == MagicLinkOutcome(old(db.Snapshot()), r, today)
  {
    if r.userCode !in db.users.rows {
      return Unauthorized;
    }
    db.users.UpdateLastActivity(r.userCode, today);
    status := Ok;
  }

  method HandleCollectionInvite(db: Db, r: Rsvp, today: int) returns (status: Status)
    requires db.Valid()
    modifies db.users, db.collections
    ensures db.Valid()
    ensures (status, db.Snapshot()) == InviteOutcome(old(db.Snapshot()), r, today)
  {
    if r.userCode !in db.users.rows {
      return Unauthorized;
    }
    ghost var st0 := db.Snapshot();
    db.users.UpdateLastActivity(r.userCode, today);
    var u := db.users.rows[r.userCode];
    assert u == st0.users[r.userCode].(lastActivity := today);
    if r.collectionCode.Some? && r.collectionCode.value != "" && r.collectionCode.value in db.collections.rows {
      var c := r.collectionCode.value;
      db.collections.AddInvite(c, u.code);
      if c !in u.sharedCollections {
        db.users.AddSharedCollection(r.userCode, c);
      }
      assert db.users.rows == st0.users[r.userCode := u.(sharedCollections := AppendIfAbsent(u.sharedCollections, c))];
      assert db.collections.rows == st0.collections[c := WithInvite(st0.collections[c], u.code)];
    }
    status := Ok;
  }

  /** The booking lookup by code, as a search over the rows. */
  method FindBooking(rows: seq<Booking>, code: Option<string>) returns (b: Option<Booking>)
    requires UniqueCodes(rows)
    ensures code.None? ==> b.None?
    ensures code.Some? ==> b == Get(rows, code.value)
  {
    if code.None? {
      return None;
    }
    var i := 0;
    while i < |rows|
      invariant 0 <= i <= |rows|
      invariant forall j :: 0 <= j < i ==> rows[j].code != code.value
    {
      if rows[i].code == code.value {
        return Some(rows[i]);
      }
      i := i + 1;
    }
    return None;
  }

  method HandleBookingAccept(db: Db, r: Rsvp, now: int) returns (status: Status)
    requires db.Valid()
    modifies db.bookings, db.things
    ensures db.Valid()
    ensures (status, db.Snapshot()) == AcceptOutcome(old(db.Snapshot()), r, now)
  {
    var b := FindBooking(db.bookings.rows, r.targetCode);
    if b.None? {
      return NotFound;
    }
    var booking := b.value;
    if !Bookings.IsValid(booking, now) {
      return BadRequest;
    }
    if booking.thingCode !in db.things.rows {
      return NotFound;
    }
    var t := db.things.rows[booking.thingCode];
    db.bookings.Accept(booking.code);
    if IsSingleUse(booking.thingType) {
      t := t.(status := Inactive, available := false);
      if booking.requesterCode !in t.deal {
        t := t.(deal := t.deal + [booking.requesterCode]);
      }
      db.things.Save(t);
    }
    status := Ok;
  }

  method HandleBookingReject(db: Db, r: Rsvp, now: int) returns (status: Status)
    requires db.Valid()
    modifies db.bookings, db.things
    ensures db.Valid()
    ensures (status, db.Snapshot()) == RejectOutcome(old(db.Snapshot()), r, now)
  {
    var b := FindBooking(db.bookings.rows, r.targetCode);
    if b.None? {
      return NotFound;
    }
    var booking := b.value;
    if !Bookings.IsValid(booking, now) {
      return BadRequest;
    }
    if booking.thingCode !in db.things.rows {
      return NotFound;
    }
    var t := db.things.rows[booking.thingCode];
    db.bookings.Reject(booking.code);
    if IsSingleUse(booking.thingType) {
      db.things.Save(t.(status := Active));
    }
    status := Ok;
  }

  /** `VerifyLinkView.get`, less the rate limit, the login and the mails. */
  method VerifyLinkView(db: Db, code: string, now: int, today: int) returns (status: Status)
    requires db.Valid()
    modifies db.bookings, db.things, db.users, db.collections, db.rsvps
    ensures db.Valid()
    ensures (status, db.Snapshot()) == VerifyLink(old(db.Snapshot()), code, now, today)
  {
    if code !in db.rsvps.rows {
      return Unauthorized;
    }
    var r := db.rsvps.rows[code];
    if !Rsvps.IsValid(r, now) {
      db.rsvps.Delete(code);
      return Unauthorized;
    }
    match r.action {
      case CollectionInvite =>
        status := HandleCollectionInvite(db, r, today);
      case BookingAccept =>
        status := HandleBookingAccept(db, r, now);
      case BookingReject =>
        status := HandleBookingReject(db, r, now);
      case _ =>
        status := HandleMagicLink(db, r, today);
    }
    db.rsvps.Delete(code);
  }
}
