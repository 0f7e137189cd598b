# oiueei booking core, modelled in Dafny

oiueei is a lending and sharing service. Users list *things* (lend, rent,
share, gift, sell or order). They gather them in *collections* and invite
other users to those collections. Invited users may ask for a thing, and the
owner answers each request by clicking an accept or a reject link in an email.

This project models the service's booking core and proves properties of it:

- **Booking rows** (`booking.dfy`, module `Bookings`):
  - the three closed type categories;
  - the PENDING to ACCEPTED, REJECTED or EXPIRED state machine and the 72-hour answer window;
  - the overlap query for date ranges and the blocked-periods calendar;
  - the batch sweep that expires stale requests.
- **Request creation** (`reservation_views.dfy`): `ThingRequestView.post`.
  - Its chain of guards.
  - The dispatch by category to the date, order or single-use handler.
  - Minting the two one-time tokens (RSVPs) that carry the owner's answer.
- **Token resolution** (`auth_views.dfy`): `VerifyLinkView.get`.
  - Expiry and consumption of the token.
  - Dispatch to the magic-link, collection-invite, booking-accept and booking-reject handlers.
  - Also `RequestLinkView.post`'s unknown-email guard.
- **Supporting rules**:
  - tokens and their booking context (`rsvp.dfy`);
  - collections (`collections.dfy`);
  - things with their reserve/release and FAQ lists (`things.dfy`);
  - users (`users.dfy`), FAQs (`faqs.dfy`) and the older reservation requests (`reservation.dfy`);
  - the request serializers (`booking_serializers.dfy`);
  - the image-id validator (`validators.dfy`);
  - code generation and image URLs (`utils.dfy`).
- **The other views**:
  - the calendar and booking lists (`booking_views.dfy`);
  - the thing endpoints (`thing_views.dfy`);
  - the profile endpoints (`user_views.dfy`);
  - the FAQ endpoints (`faq_views.dfy`).

Rows are datatype values, because an ORM instance is a copy of its row.
Each table is a class whose methods rewrite rows in place (`modifies this`).
The booking table is a sequence of rows; the other tables are maps keyed by
code. `Database.Db` groups the tables, and `Db.Snapshot()` reads them into one
`State` value.

Every view that writes is modelled twice:

1. as a function from the old `State` to a status and the new `State`;
2. as a method on the tables that is proved to agree with it (`ensures (status, db.Snapshot()) == Spec(old(db.Snapshot()), ...)`).

The properties of each view are lemmas about its function. Timestamps are
whole seconds and dates are whole days. "Now", "today" and every drawn code
are parameters.

## Model

| member | source | states |
|---|---|---|
| Bookings.CategoryOf | core/models/booking.py:19-25 | The three category lists are disjoint. Each type is in exactly one category, and "uncategorised" means on no list. |
| Bookings.IsValid | core/models/booking.py:92-96 | A booking can still be answered while it is PENDING and less than 72 hours old. A valid booking still blocks its dates and is not one the sweep would expire. |
| Bookings.ValidityIsAWindow | core/models/booking.py:92-96 | A booking is answerable only while PENDING and less than 72 hours old. Once it stops being answerable it never becomes answerable again. |
| Bookings.Blocks | core/models/booking.py:114-129 | Definition only: a row blocks a range when it is of the thing, PENDING or ACCEPTED, not the excluded code, and its dates meet the range. Bookings.HasOverlap and Bookings.OverlapMatchesCalendar state its use. |
| Bookings.HasOverlap | core/models/booking.py:113-129 | The result is true exactly when some row of the same thing, PENDING or ACCEPTED and not the excluded code, has dates meeting the inclusive range. A dateless row never matches. |
| Bookings.TouchingRangesOverlap | core/models/booking.py:119-125 | A range that touches a booked start or end day collides. A range that begins the day after the booked end, or ends the day before the booked start, is free. |
| Bookings.ReleasedRowsNeverBlock | core/models/booking.py:123 | A REJECTED or EXPIRED row never changes the overlap answer: the answer is the same with the row removed. |
| Bookings.Get | core/models/booking.py:49-60 | Lookup by primary key finds the row carrying the code. It is None exactly when no row carries it, and with unique codes it is that row. |
| Bookings.WithStatus | core/models/booking.py:98-112 | Definition only: the table with one booking's status set. Bookings.StatusChangeTouchesOnlyStatus states what it changes. |
| Bookings.StatusChangeTouchesOnlyStatus | core/models/booking.py:98-111 | Accept, reject and expire give the addressed booking the new status. No other field and no other booking changes, and codes stay unique. |
| Bookings.StatusChangeKeepsNoDoubleBooking | core/models/booking.py:98-111 | Changing a status never creates two blocking bookings of one thing with overlapping dates. |
| Bookings.InsertKeepsNoDoubleBooking | core/models/booking.py:113-129 | Appending a booking whose range the overlap query found free keeps the table free of double bookings. |
| Bookings.StartDateOrderIsTotal | core/models/booking.py:140 | Ordering by start date, with dateless rows last, is a total preorder. |
| Bookings.BlockedPeriods | core/models/booking.py:131-140 | The calendar holds exactly the PENDING and ACCEPTED bookings of the thing, each as often as in the table, sorted by start date. |
| Bookings.OverlapMatchesCalendar | core/models/booking.py:113-140 | The overlap query is true exactly when some period on the thing's calendar meets the range. |
| Bookings.IsStale | core/models/booking.py:143-154 | Definition only: a PENDING row created more than 72 hours before `now`. Bookings.IsValid and Bookings.SweepOnlyExpiresStale relate it to validity. |
| Bookings.Swept | core/models/booking.py:143-154 | Definition only: the table with every stale row EXPIRED. Bookings.SweepOnlyExpiresStale and Bookings.SweepIsIdempotent state its properties. |
| Bookings.CountStale | core/models/booking.py:142-154 | The sweep's count is the number of stale rows (the size of the set of their positions). It is at most the table size and zero exactly when no row is stale. |
| Bookings.ShiftedSize | core/models/booking.py:142-154 | Moving a set of positions up by one keeps its size, which carries the count of stale rows from the tail of the table to the whole. |
| Bookings.SweepOnlyExpiresStale | core/models/booking.py:142-154 | The sweep turns every PENDING row created before now minus 72 hours into EXPIRED. It leaves every other row, including every answerable one, as it was, and keeps codes unique and the table free of double bookings. |
| Bookings.SweepIsIdempotent | core/models/booking.py:142-154 | A second sweep at the same time changes nothing and counts zero. |
| Bookings.BookingTable.Insert | core/views/reservations.py:90-98 | An insert appends the row when its code is new. A code already in use is refused and the table stays unchanged. |
| Bookings.BookingTable.Accept | core/models/booking.py:98-101 | The table afterwards is the old table with that booking ACCEPTED. |
| Bookings.BookingTable.Reject | core/models/booking.py:103-106 | The table afterwards is the old table with that booking REJECTED. |
| Bookings.BookingTable.Expire | core/models/booking.py:108-111 | The table afterwards is the old table with that booking EXPIRED. |
| Bookings.BookingTable.ExpireOldPending | core/models/booking.py:142-154 | The table becomes its swept image, and the returned count is the number of stale rows. |
| Collections.NewCollection | core/models/collection.py:11-44 | A new collection is empty and visible to its owner, and the owner is not on its invite list. |
| Collections.CanView | core/models/collection.py:78-80 | Definition only: the owner and the invited users see a collection. Its properties are stated by Collections.ViewRequiresOwnershipOrInvite. |
| Collections.ViewRequiresOwnershipOrInvite | core/models/collection.py:70-80 | Anyone but the owner who can view a collection is on its invite list. With no invites only the owner can view, and an invite grants the view. |
| Collections.WithThing | core/models/collection.py:46-50 | After `add_thing` the code is listed. A listed code leaves the collection unchanged, the list gains only that code, and a duplicate-free list stays duplicate-free. |
| Collections.WithoutThing | core/models/collection.py:52-56 | `remove_thing` removes one copy of the code and nothing else. An absent code changes nothing. |
| Collections.WithInvite | core/models/collection.py:58-62 | After `add_invite` the user is invited. A user already invited leaves the collection unchanged, and a duplicate-free list stays duplicate-free. |
| Collections.WithoutInvite | core/models/collection.py:64-68 | `remove_invite` removes one copy of the user and nothing else. An absent user changes nothing. |
| Collections.RemovalsKeepValid | core/models/collection.py:52-68 | On duplicate-free lists a removal takes out exactly the given entry, keeps every other entry and keeps the lists duplicate-free. A removed user is no longer invited. |
| Collections.AddsAreIdempotent | core/models/collection.py:46-62 | Adding the same thing or invite twice is the same as adding it once. |
| Collections.CollectionTable.AddThing | core/models/collection.py:46-50 | The collection's row becomes its `add_thing` image. No other row changes. |
| Collections.CollectionTable.RemoveThing | core/models/collection.py:52-56 | The collection's row becomes its `remove_thing` image. No other row changes. |
| Collections.CollectionTable.AddInvite | core/models/collection.py:58-62 | The collection's row becomes its `add_invite` image. No other row changes. |
| Collections.CollectionTable.RemoveInvite | core/models/collection.py:64-68 | The collection's row becomes its `remove_invite` image. No other row changes. |
| Things.NewThing | core/models/thing.py:16-40 | A new thing is ACTIVE and available, with an empty deal and FAQ list. |
| Things.Reserved | core/models/thing.py:53-58 | After `reserve` the user holds the thing. A new holder is appended and makes it unavailable, and an existing holder changes nothing. Only the deal and availability change, and the deal stays duplicate-free. |
| Things.Released | core/models/thing.py:60-66 | `release` removes one copy of a holder and changes nothing for a non-holder. It makes the thing available when the deal empties, and otherwise leaves availability as it was. |
| Things.ReleaseRemovesHolder | core/models/thing.py:60-66 | On a duplicate-free deal, the released user no longer holds the thing and every other holder remains. The thing is available afterwards exactly when it was before or the user was the only holder. |
| Things.ReserveThenRelease | core/models/thing.py:53-66 | Reserving and then releasing an unheld thing gives back the thing, available and unheld. |
| Things.WithFaq | core/models/thing.py:68-72 | After `add_faq` the code is listed, a listed code changes nothing, and the list stays duplicate-free. |
| Things.WithoutFaq | core/models/thing.py:74-78 | `remove_faq` removes one copy of the code and nothing else. |
| Things.FaqListStaysDuplicateFree | core/models/thing.py:68-78 | Adding a FAQ code twice is adding it once. Removing one from a duplicate-free list leaves it duplicate-free and without the code. |
| Things.CanView | core/views/reservations.py:44 | Definition only: the owner sees a thing; anyone else sees it while it is available and listed by a collection they are invited to. Things.HiddenThingOnlyOwnerSees and ThingViews.RequestViewImpliesPageView state its properties. |
| Things.HiddenThingOnlyOwnerSees | core/views/reservations.py:43-48 | An unavailable thing passes the request view check only for its owner. |
| Things.ThingTable.Insert | core/views/things.py:30-37 | A new code stores the thing, and a code in use is refused with nothing changed. |
| Things.ThingTable.Save | core/views/things.py:113-131 | Saving replaces the thing's row alone. |
| Things.ThingTable.Reserve | core/models/thing.py:53-58 | The thing's row becomes its `reserve` image. |
| Things.ThingTable.Release | core/models/thing.py:60-66 | The thing's row becomes its `release` image. |
| Things.ThingTable.AddFaq | core/models/thing.py:68-72 | The thing's row becomes its `add_faq` image. |
| Things.ThingTable.RemoveFaq | core/models/thing.py:74-78 | The thing's row becomes its `remove_faq` image. |
| Things.ThingTable.Delete | core/views/things.py:155 | The row with that code is gone and the others stay. |
| Users.UserTable.UpdateLastActivity | core/models/user.py:74-77 | Only the user's last-activity day changes, to today. |
| Users.UserTable.AddSharedCollection | core/views/auth.py:214-216 | The collection joins the user's shared list unless it is already there. Nothing else changes. |
| Users.UserTable.AddThing | core/views/things.py:39-42 | The thing joins the user's list unless it is already there. |
| Users.UserTable.RemoveThing | core/views/things.py:147-150 | The first copy of the code leaves the user's list. |
| Faqs.NewFaq | core/models/faq.py:16-22 | A new FAQ is visible and unanswered. |
| Faqs.HasAnswer | core/models/faq.py:31-33 | Definition only: a FAQ has an answer when the answer text is not empty. Faqs.AnsweringAnswers states when answering makes it hold. |
| Faqs.Answered | core/models/faq.py:31-38 | `answer` sets the answer and changes no other field. The FAQ counts as answered exactly when the text is non-empty. |
| Faqs.AnsweringAnswers | core/models/faq.py:31-38 | A non-empty answer makes the FAQ answered, and a later answer replaces it. |
| Faqs.FaqTable.Insert | core/views/faq.py:81-88 | A new code stores the FAQ, and a code in use is refused. |
| Faqs.FaqTable.Answer | core/models/faq.py:35-38 | The FAQ's row becomes its answered image. |
| Faqs.FaqTable.SetVisible | core/views/faq.py:268-293 | Only the FAQ's visibility changes. |
| Reservations.ReservationRequest.constructor | core/models/reservation.py:12-38 | A new request is PENDING. It is valid when created and no longer valid 72 hours later. |
| Reservations.ReservationRequest.Accept | core/models/reservation.py:48-51 | The status becomes ACCEPTED, and the request is never valid again. |
| Reservations.ReservationRequest.Reject | core/models/reservation.py:53-56 | The status becomes REJECTED, and the request is never valid again. |
| Reservations.ReservationRequest.IsValid | core/models/reservation.py:40-46 | Definition only: a request is valid while PENDING and before its expiry time. Reservations.ValidityIsAWindow and the Accept and Reject contracts state its properties. |
| Reservations.ValidityIsAWindow | core/models/reservation.py:40-46 | Validity only runs out and is gone at 72 hours. |
| Rsvps.IsValid | core/models/rsvp.py:60-66 | Definition only: a token is honoured for 24 hours after it is minted, whatever its action. Rsvps.TokenOutlivedByBooking and AuthViews.LateTokenRefused state its consequences. |
| Rsvps.TokenOutlivedByBooking | core/models/rsvp.py:60-66 | A booking token expires 48 hours before its booking's answer window closes. While the token is valid, the booking is answerable exactly when it is PENDING. |
| Rsvps.NewMagicLink | core/models/rsvp.py:31-44 | A login token has the MAGIC_LINK action, no target and no context. It is valid when issued and expired 24 hours later. |
| Rsvps.OptionalBookingKeys | core/models/rsvp.py:85-93 | Each optional context key is present exactly when its booking field is set. A zero quantity counts as unset. |
| Rsvps.BuildBookingContext | core/models/rsvp.py:78-93 | The step-by-step context builder produces the booking's context. |
| Rsvps.ContextCarriesBooking | core/models/rsvp.py:78-93 | Every context entry holds the booking's own value. |
| Rsvps.ContextKeys | core/models/rsvp.py:78-93 | The context keys are the four base keys plus exactly the optional keys of the booking's set fields. |
| Rsvps.ForBooking | core/models/rsvp.py:68-101 | A booking token goes to the owner at the owner's email. It carries the given action, targets the booking's code and has no collection. |
| Rsvps.RsvpTable.Insert | core/views/auth.py:59-63 | A new code stores the token, and a code in use is refused. |
| Rsvps.RsvpTable.CreateForBooking | core/models/rsvp.py:68-101 | A new code stores the booking token, and a code in use is refused. |
| Rsvps.RsvpTable.Delete | core/views/auth.py:126 | The token is gone, and the others stay. |
| BookingSerializers.DayNotInPast | core/serializers/booking.py:75-79 | A date passes exactly when it is given and not before today. A missing date is "required". |
| BookingSerializers.AnyDay | core/serializers/booking.py:72-73 | A date field passes exactly when a date is given. |
| BookingSerializers.AddError | core/serializers/booking.py:69-91 | An error is recorded under its field, and no other field's entry changes. |
| BookingSerializers.ValidateDates | core/serializers/booking.py:69-91 | A range is accepted exactly when today <= start <= end. Each field is reported exactly when it is at fault, and no other field is reported. |
| BookingSerializers.EmptyDateRequestReportsBothFields | core/serializers/booking.py:72-73 | A body with neither date reports both fields as required. |
| BookingSerializers.SameDayRangeAccepted | core/serializers/booking.py:81-91 | A one-day range is accepted. An end before the start is reported on the end date. |
| BookingSerializers.QuantityInRange | core/serializers/booking.py:98 | A quantity passes exactly when it lies in 1..99. |
| BookingSerializers.ValidateOrder | core/serializers/booking.py:94-104 | An order is accepted exactly when the delivery date is not in the past and the quantity lies in 1..99. The fields at fault are reported. |
| Lists.AppendIfAbsent | core/models/collection.py:46-50 | The element is present afterwards. The old list is a prefix and at most one element is added, a present element changes nothing, and a duplicate-free list stays duplicate-free. |
| Lists.AppendIfAbsentIdempotent | core/models/collection.py:46-50 | Appending an element twice is appending it once. |
| Lists.IndexOf | core/models/collection.py:52-56 | The index points at the first copy of the element. |
| Lists.RemoveFirst | core/models/collection.py:52-56 | `list.remove` drops the first copy of the element and keeps the rest in order. An absent element changes nothing. |
| Lists.RemoveFirstMultiset | core/models/collection.py:52-56 | Removing an element takes exactly one copy out of the list's contents. |
| Lists.RemoveFirstFromNoDup | core/models/collection.py:52-68 | On a duplicate-free list, removal takes the element out entirely, keeps every other element, keeps the list duplicate-free, and shortens it by one when the element was present. |
| Lists.Filter | core/views/booking.py:75-99 | A query filter keeps exactly the rows that satisfy the condition, each as often as in the table. |
| Sorting.Insert | core/views/booking.py:75-99 | Inserting into a sorted list keeps it sorted and adds just that element. |
| Sorting.InsertionSort | core/views/booking.py:75-99 | `order_by` returns a sorted permutation of its input. |
| Utils.GenerateId | core/utils.py:11-14 | A generated code has six characters, each an upper-case letter or a digit. |
| Utils.AlphabetIsUpperOrDigit | core/utils.py:13 | Every character of the code alphabet is an upper-case letter or a digit. |
| Utils.CloudinaryUrl | core/utils.py:17-22 | There is no URL exactly when the id is None or empty. Otherwise the URL starts with the https scheme, ends in ".png" and is as long as the prefix, id and suffix together. |
| Utils.ImageIdOfUrl | core/utils.py:17-22 | Reading an id back from a URL yields a non-empty id whose URL it is. |
| Utils.UrlRoundTrip | core/utils.py:17-22 | Building the URL of a non-empty id and reading the id back gives that id, and the other direction holds as well. |
| Validators.AllImageIdChars | core/validators.py:22-25 | The result holds exactly when every character is a letter, digit, underscore or hyphen. |
| Validators.ValidateImageIdAsWritten | core/validators.py:15-26 | As written, the check also accepts one trailing newline after a valid id, because `$` matches before a final newline. An accepted id is returned unchanged, and a refused one raises the unsafe-characters error. |
| Validators.ValidateImageId | core/validators.py:15-26 | An id is accepted exactly when it is None or every character is in [A-Za-z0-9_-]. An accepted id is returned unchanged. |
| Validators.TrailingNewlineAccepted | core/validators.py:22 | "abc\n" passes the check as written but fails the intended one. |
| Validators.AsWrittenDiffersOnlyOnTrailingNewline | core/validators.py:22 | The two checks disagree only on a valid id followed by one newline, and the intended check never accepts more. |
| Validators.UnsafeCharacterRefused | core/validators.py:22-25 | Any single character outside the allowed class makes the id fail. |
| Validators.AttackShapesRefused | core/validators.py:22-25 | Path traversal, spaces, HTML and `@#$` are refused. |
| Validators.ImageIdFieldOptions | core/validators.py:36-40 | Unless overridden, the field has max length 16, is not required and allows blanks. |
| Validators.LeadingSpace | core/validators.py:42-45 | Counts the whitespace `s` starts with: every counted character is whitespace, and the next one, if any, is not. Whitespace is Python's `str.isspace` set (ASCII controls, no-break space, the Unicode spaces and separators). |
| Validators.TrailingSpace | core/validators.py:42-45 | Counts the whitespace `s` ends with: every counted character is whitespace, and the one before them, if any, is not. |
| Validators.TrimStart | core/validators.py:42-45 | Trimming the start keeps a suffix of the input that begins with no whitespace, and everything dropped is whitespace. |
| Validators.TrimEnd | core/validators.py:42-45 | Trimming the end keeps a prefix of the input that ends with no whitespace, and everything dropped is whitespace. |
| Validators.Trim | core/validators.py:42-45 | `str.strip()`: the input is its leading whitespace, then the result, then only whitespace. The result is the slice between and neither starts nor ends with whitespace. |
| Validators.TrimBetween | core/validators.py:42-45 | Trimming removes exactly the edge whitespace: if only whitespace lies before `k` and from `j` on, and `s[k..j]` has no whitespace at either end, the result is `s[k..j]`. |
| Validators.ImageIdFieldValue | core/validators.py:42-45 | A value the field accepts is the input with `str.isspace` whitespace trimmed from both ends. It is empty or wholly made of allowed characters, and it is within the maximum length. |
| Validators.ImageIdFieldHidesTrailingNewline | core/validators.py:42-44 | Through an `ImageIdField` the check as written and the intended one always agree: the field trims first, so the trailing-newline defect cannot be reached from a request. |
| Validators.LeadingNoBreakSpaceTrimmed | core/validators.py:42-45 | A leading no-break space is trimmed before the id check, so "\u00a0abc" gives "abc". |
| Validators.CharFieldText | core/models/user.py:40 | A text field accepts exactly a trimmed value that is blank where blanks are allowed, or non-blank, within the maximum length and free of NUL. The accepted value is the trimmed input. |
| Validators.CharFieldTextTrimsUnicodeSpace | core/models/user.py:40 | Ideographic and no-break spaces around a name are trimmed off. |
| Validators.CharFieldTextBlank | core/models/user.py:40 | A line separator alone is blank: `""` where blanks are allowed and refused where not. |
| Validators.CharFieldTextRefusesNul | core/models/user.py:40 | A NUL character inside the text is refused. |
| Database.Sweep | core/models/booking.py:142-154 | The sweep changes only the bookings table and keeps it free of double bookings. |
| Database.Db.Snapshot | core/models/booking.py:49-60 | Consistent tables read as a state whose map tables hold each row under its own code and whose booking codes are unique. |
| Database.Db.ExpireOldPending | core/models/booking.py:142-154 | The whole database becomes its swept state, and the count is the number of stale bookings. |
| ReservationViews.RequestGuard | core/views/reservations.py:35-62 | The guards fail in source order, and the first failure wins. A missing thing is 404. A thing the caller may not see is 403. The owner, or a thing that is not ACTIVE, is 400. Each answer is given exactly in its case. |
| ReservationViews.OwnerEmail | core/views/reservations.py:210-216 | The owner's email is found exactly when the owner exists with a non-empty email. |
| ReservationViews.NewBooking | core/views/reservations.py:90-98 | Definition only: a new PENDING booking copying the thing's code, type and owner and the caller's code and email. ReservationViews.RequestWritesOnlyItsRows states these facts. |
| ReservationViews.HasPendingRequest | core/views/reservations.py:168-177 | Definition only: the caller already has a PENDING booking for the thing. ReservationViews.StandardRequest is 400 exactly when it holds. |
| ReservationViews.Request | core/views/reservations.py:34-70 | A request answers 200, 400, 403, 404, 409 or 500. A 403 or 404 writes nothing. Only bookings, things and tokens may change; bookings only gain at most one row at the end, and tokens are only added. |
| ReservationViews.DateRequest | core/views/reservations.py:72-121 | The date handler answers 200, 400, 409 or 500, and 400 and 409 write nothing. Only bookings and tokens change; bookings gain at most one row at the end, and tokens are only added. |
| ReservationViews.OrderRequest | core/views/reservations.py:123-163 | The order handler answers 200, 400 or 500, and 400 writes nothing. Only bookings and tokens change; bookings gain at most one row at the end, and tokens are only added. |
| ReservationViews.StandardRequest | core/views/reservations.py:165-208 | The single-use handler is 400 exactly when the caller already has a PENDING booking for the thing, and then writes nothing. Otherwise it answers 200 or 500, changing only bookings (at most one row at the end), the thing and tokens (only added). |
| ReservationViews.MintAndRespond | core/views/reservations.py:218-224 | Minting answers 200 or 500 and only adds tokens. |
| ReservationViews.GuardFailureWritesNothing | core/views/reservations.py:35-62 | A failing guard's answer is returned and no table changes. |
| ReservationViews.MintOutcome | core/views/reservations.py:218-224 | Minting answers 200 exactly when the owner's email is known and two distinct fresh codes were drawn, and otherwise 500. It writes only new tokens, and on 200 exactly the two booking tokens. |
| ReservationViews.AppendThenMintWritesOnlyItsRows | core/views/reservations.py:90-106 | Appending the request row (and marking a single-use thing TAKEN), then minting, writes no row outside the request's own. |
| ReservationViews.DateRequestWritesOnlyItsRows | core/views/reservations.py:72-121 | A date request writes at most its booking row and its two tokens. |
| ReservationViews.OrderRequestWritesOnlyItsRows | core/views/reservations.py:123-163 | An order request writes at most its booking row and its two tokens. |
| ReservationViews.StandardRequestWritesOnlyItsRows | core/views/reservations.py:165-208 | A single-use request writes at most its booking row, the thing's TAKEN status and its two tokens. |
| ReservationViews.RequestWritesOnlyItsRows | core/views/reservations.py:34-70 | Any request either changes nothing or writes only the rows of a request for the named thing. A new booking is always for that thing and copies the thing's type and owner and the caller's code and email. |
| ReservationViews.MintKeepsBookings | core/views/reservations.py:218-224 | Minting never touches the bookings. |
| ReservationViews.DateRequestKeepsNoDoubleBooking | core/views/reservations.py:72-121 | A date request never creates a double booking. |
| ReservationViews.OrderRequestKeepsNoDoubleBooking | core/views/reservations.py:123-163 | An order request, which is dateless, never creates a double booking. |
| ReservationViews.StandardRequestKeepsNoDoubleBooking | core/views/reservations.py:165-208 | A single-use request never creates a double booking. |
| ReservationViews.RequestKeepsNoDoubleBooking | core/views/reservations.py:34-70 | No request ever leads to two blocking bookings of one thing with overlapping dates. |
| ReservationViews.DateRequestOutcome | core/views/reservations.py:72-121 | For a date-based thing: an invalid range is 400, and an overlapping range is 409; both write nothing. Once the range is valid and free and the booking code is fresh, the bookings become the old ones plus exactly the `NewBooking` row with those dates. The thing is never changed. If the owner then has no email, the answer is 500, the booking stays stored, and no token is minted. |
| ReservationViews.OrderRequestOutcome | core/views/reservations.py:123-163 | For an order thing: invalid input is 400 and writes nothing. Once the input is valid and the booking code is fresh, the bookings become the old ones plus exactly the `NewBooking` row with the delivery date and quantity and no dates. The thing is never changed. If the owner then has no email, the answer is 500, the booking stays stored, and no token is minted. |
| ReservationViews.StandardRequestOutcome | core/views/reservations.py:165-208 | For any other type, a pending request by the same caller is 400 and writes nothing. Otherwise a dateless booking is appended and the thing becomes TAKEN. A missing owner is then 500 with no token, the booking and TAKEN kept. |
| ReservationViews.SuccessMintsTwoTokens | core/views/reservations.py:223-224 | A successful request mints exactly two new tokens, an accept and a reject, both targeting the new booking and both addressed to the thing's owner. |
| ReservationViews.MintedForOwner | core/views/reservations.py:218-224 | A successful mint adds exactly the accept and reject tokens for the booking, addressed to its owner. |
| ReservationViews.TakenThingRefusesRequests | core/views/reservations.py:187-189 | Once a single-use request is stored, the thing is TAKEN. Every later request for it, by anyone, fails a guard and writes nothing. |
| ReservationViews.GetOwnerEmail | core/views/reservations.py:210-216 | The lookup returns the owner's email as specified. |
| ReservationViews.SendBookingEmail | core/views/reservations.py:218-224 | Minting on the tables has exactly the specified effect and answer. |
| ReservationViews.HandleDateBasedRequest | core/views/reservations.py:72-121 | The date handler on the tables has exactly the specified effect and answer. |
| ReservationViews.HandleOrderRequest | core/views/reservations.py:123-163 | The order handler on the tables has exactly the specified effect and answer. |
| ReservationViews.HandleStandardRequest | core/views/reservations.py:165-208 | The single-use handler on the tables has exactly the specified effect and answer. |
| ReservationViews.ThingRequest | core/views/reservations.py:34-70 | `ThingRequestView.post` on the tables has exactly the specified effect and answer. |
| AuthViews.UserWithEmail | core/views/auth.py:46-47 | With unique emails, the lookup finds a user exactly when one has that email, and it returns that user. |
| AuthViews.RequestLink | core/views/auth.py:38-87 | Requesting a link answers 200, 404 or 500. It is 404 exactly when no user has the email. Only 200 writes, and only tokens are added. |
| AuthViews.RequestLinkOutcome | core/views/auth.py:38-87 | An unknown email is 404 and creates no token. A known email creates exactly one new MAGIC_LINK token for that user, valid now and expired after 24 hours, and writes nothing else. |
| AuthViews.FindUserByEmail | core/views/auth.py:46-47 | The search returns the specified user. |
| AuthViews.RequestLinkView | core/views/auth.py:38-87 | `RequestLinkView.post` on the tables has exactly the specified effect and answer. |
| AuthViews.TargetBooking | core/views/auth.py:249-256 | The token's booking is the row with its target code. It is missing exactly when there is no target or no such row. |
| AuthViews.AcceptedThing | core/views/auth.py:276-284 | An accepted single-use thing is INACTIVE, unavailable and held by the requester, and its deal gains only the requester. |
| AuthViews.MagicLinkOutcome | core/views/auth.py:143-182 | A login token is 401 exactly when its user is missing, and then writes nothing. It changes only the users table and keeps its keys. |
| AuthViews.InviteOutcome | core/views/auth.py:191-243 | An invite is 401 exactly when its user is missing, and then writes nothing. It changes only users and collections and keeps the keys of both. |
| AuthViews.AcceptOutcome | core/views/auth.py:245-345 | Accepting answers 200, 404 or 400. It is 404 exactly when the booking is missing, or valid but its thing is missing. A refusal writes nothing. Only bookings and things change; no row is added or removed. |
| AuthViews.RejectOutcome | core/views/auth.py:347-435 | Rejecting answers 200, 404 or 400, with the same 404 cases as accepting. A refusal writes nothing. Only bookings and things change; no row is added or removed. |
| AuthViews.Dispatch | core/views/auth.py:132-141 | Definition only: the handler chosen by the token's action, with the magic-link handler for any other action. AuthViews.DispatchKeepsTokens states that no handler writes tokens. |
| AuthViews.VerifyLink | core/views/auth.py:112-141 | Resolving a link answers 200, 401, 404 or 400. The token is deleted and no other token changes. FAQs never change. A live token whose handler refuses only consumes the token. |
| AuthViews.DispatchKeepsTokens | core/views/auth.py:133-140 | No handler writes the tokens table. |
| AuthViews.VerifyConsumesToken | core/views/auth.py:112-141 | An unknown code is 401 and writes nothing. A known code is deleted on every path. |
| AuthViews.SecondUseRefused | core/views/auth.py:115-130 | A code, once used, is 401 on any later use and writes nothing. |
| AuthViews.LateTokenRefused | core/views/auth.py:121-130 | A token 24 hours old or older is 401 and is deleted, and nothing else changes. |
| AuthViews.BookingRefusalOnlyConsumes | core/views/auth.py:245-273 | A booking token that fails any check only consumes the token. Its answer is 200, 401, 404 or 400. |
| AuthViews.MagicLinkTouchesOnlyActivity | core/views/auth.py:143-182 | A login token is 200 exactly when its user exists. It only stamps today's activity and consumes the token; a missing user is 401. |
| AuthViews.InviteGrantsView | core/views/auth.py:191-243 | An invite to an existing collection lets the user view it. It puts the collection on the user's shared list, keeps both lists duplicate-free and stamps today's activity. |
| AuthViews.AcceptEffects | core/views/auth.py:245-345 | An accepted booking becomes ACCEPTED. For a single-use thing, the things map becomes the old one with only that thing replaced by its `AcceptedThing` image: INACTIVE, unavailable, the requester in the deal, and every other field kept. For other types the things are unchanged. Users, collections and FAQs are always unchanged. |
| AuthViews.RejectEffects | core/views/auth.py:347-435 | A rejected booking becomes REJECTED, and a single-use thing is ACTIVE again. Nothing else changes. |
| AuthViews.VerifyRewritesOnlyAStatus | core/views/auth.py:276-284 | Resolving a token either leaves the bookings alone or sets the status of the one answerable booking it targets, as its action says. |
| AuthViews.VerifyKeepsNoDoubleBooking | core/views/auth.py:112-141 | Resolving any token never creates a double booking. |
| AuthViews.DecisionIsFinal | core/views/auth.py:257-263 | Once an owner's answer is applied, the booking's other token is refused with 400 and only consumed. |
| AuthViews.DecidedBookingRefused | core/views/auth.py:257-263 | A token for a booking that is no longer PENDING is 400 and only consumed. |
| AuthViews.VerifyKeepsNoDoubleBookingCodes | core/views/auth.py:112-141 | Resolving a token keeps booking codes unique. |
| AuthViews.AcceptResponseKeys | core/views/auth.py:331-345 | The accept answer has each optional field exactly when the booking has it set. |
| AuthViews.AcceptResponseEchoesToken | core/views/auth.py:331-345 | The accept answer's optional fields are exactly the optional keys of the token's context. |
| AuthViews.HandleMagicLink | core/views/auth.py:143-182 | The magic-link handler on the tables has exactly the specified effect. |
| AuthViews.HandleCollectionInvite | core/views/auth.py:191-243 | The invite handler on the tables has exactly the specified effect. |
| AuthViews.FindBooking | core/views/auth.py:249-256 | The search returns the row with the target code, or nothing without a target. |
| AuthViews.HandleBookingAccept | core/views/auth.py:245-345 | The accept handler on the tables has exactly the specified effect. |
| AuthViews.HandleBookingReject | core/views/auth.py:347-435 | The reject handler on the tables has exactly the specified effect. |
| AuthViews.VerifyLinkView | core/views/auth.py:112-141 | `VerifyLinkView.get` on the tables has exactly the specified effect and answer. |
| BookingViews.RowOf | core/views/booking.py:53-56 | The owner's row carries the booking and requester codes, a guest's row does not, and both carry the dates and status. |
| BookingViews.Calendar | core/views/booking.py:33-58 | The calendar answers 200, 404 or 403. It is 404 exactly when the thing is missing. A refusal carries no rows. A 200 carries exactly the blocked periods, in order, with row i the serialization of the i-th period: an owner row for the thing's owner and a guest row for anyone else. |
| BookingViews.CalendarAccess | core/views/booking.py:33-58 | A missing thing is 404 and a thing the caller may not see is 403, both with no rows. Otherwise every row is an owner row exactly when the caller owns the thing. |
| BookingViews.RowsFollowStartDates | core/views/booking.py:50 | Serialized rows keep the start-date order. |
| BookingViews.RowsMeetWhenPeriodsBlock | core/views/booking.py:50 | A row meets a range exactly when its period blocks that range. |
| BookingViews.CalendarShowsAvailability | core/views/booking.py:33-58 | The calendar is in start-date order. A date request is refused as overlapping exactly when some calendar row meets its range. |
| BookingViews.NewestFirstIsTotal | core/views/booking.py:78 | Newest-first is a total preorder. |
| BookingViews.MyBookings | core/views/booking.py:74-80 | The caller's list holds exactly the caller's requests, each as often as stored, newest first. |
| BookingViews.OwnerBookings | core/views/booking.py:91-102 | The owner's list holds exactly the bookings of things the caller owns, newest first. |
| BookingViews.OwnerSeesRequestsForTheirThings | core/views/booking.py:91-102 | A booking is on a user's owner list exactly when its thing exists and belongs to that user. |
| BookingViews.BookingListedForBothParties | core/views/booking.py:74-102 | A stored booking appears on its requester's list, and on its owner's list while the owner still owns the thing. |
| ThingViews.MayOpen | core/views/things.py:80-94 | Definition only: the owner, or a user with an existing shared collection listing the thing. ThingViews.CanViewThing is proved equal to it. |
| ThingViews.CanViewThing | core/views/things.py:80-94 | The page check admits the owner, or a user with an existing shared collection listing the thing. Vanished collections are skipped. |
| ThingViews.RequestViewImpliesPageView | core/views/things.py:80-94 | Whoever may request a thing may open its page, provided users record their invites. The page check ignores availability. |
| ThingViews.GetThing | core/views/things.py:96-111 | A missing thing is 404, a thing the caller may not open is 403, and otherwise 200. |
| ThingViews.Patched | core/views/things.py:113-131 | An update changes only the fields given, never the code, owner, type, deal or FAQs. An empty patch changes nothing. |
| ThingViews.PutThing | core/views/things.py:113-131 | An update answers 200, 404 or 403. A refusal writes nothing, and only the things table changes, keeping its keys. |
| ThingViews.PutOnlyByOwner | core/views/things.py:113-131 | Only the owner updates, and only that thing changes. Anyone else gets 404 or 403 with nothing written. |
| ThingViews.PutThingView | core/views/things.py:113-131 | `ThingDetailView.put` on the tables has exactly the specified effect and answer. |
| ThingViews.DeleteThing | core/views/things.py:133-158 | A delete answers 204, 404 or 403. A refusal writes nothing. Only users, collections and things change; a 204 removes exactly the thing's key, and the other tables keep theirs. |
| ThingViews.DeleteForgetsThing | core/views/things.py:133-158 | An owner's delete removes the thing, the caller's own entry for it and every copy in the caller's collections. Other users' collections, bookings, tokens and FAQs stay. Anyone else gets 403 with nothing written. |
| ThingViews.UnlistFromCollections | core/views/things.py:152-155 | The loop removes the code from each of the caller's collections that lists it and from no other collection. |
| ThingViews.DeleteThingView | core/views/things.py:133-158 | `ThingDetailView.delete` on the tables has exactly the specified effect and answer. |
| ThingViews.ReserveThing | core/views/things.py:169-198 | A reservation answers 200, 404 or 400. A refusal writes nothing, and only the things table changes, keeping its keys. |
| ThingViews.ReleaseThing | core/views/things.py:209-232 | A release answers 200, 404 or 400. A refusal writes nothing, and only the things table changes, keeping its keys. |
| ThingViews.ReserveHoldsThing | core/views/things.py:169-198 | A reservation succeeds exactly for a non-owner on an available thing and makes the caller a holder. A new holder locks out every further reservation, and a refusal writes nothing. |
| ThingViews.ReserveThenReleaseRestores | core/views/things.py:169-232 | Reserving an unheld thing and then releasing it restores the database. |
| ThingViews.ReleaseDropsHolder | core/views/things.py:209-232 | A release succeeds exactly for a holder and removes exactly that holder. A non-holder gets 400 with nothing written. |
| ThingViews.ReserveThingView | core/views/things.py:169-198 | `ThingReserveView.post` on the tables has exactly the specified effect and answer. |
| ThingViews.ReleaseThingView | core/views/things.py:209-232 | `ThingReleaseView.post` on the tables has exactly the specified effect and answer. |
| ThingViews.CreateThing | core/views/things.py:30-57 | Creating answers 201 or 500, and 500 exactly when the code is in use, with nothing written. Only things, users and collections change; a 201 adds exactly the new code to things, and users and collections keep their keys. |
| ThingViews.CreatedThingIsOwners | core/views/things.py:30-57 | A created thing is the caller's, ACTIVE, available and unheld, and on the caller's list without duplicates. The owner may open it. Only a collection the caller owns and named may change. |
| ThingViews.CreateThingView | core/views/things.py:30-57 | `ThingListView.post` on the tables has exactly the specified effect and answer. |
| UserViews.MayViewUser | core/views/users.py:14-38 | Definition only: a user sees their own profile and the profiles of those they invited or who invited them. UserViews.ProfileVisibilityIsMutual and UserViews.CanViewUser state its properties. |
| UserViews.SearchInvites | core/views/users.py:27-36 | The search finds an invite exactly when some collection of the owner invites the guest. |
| UserViews.CanViewUser | core/views/users.py:14-38 | A user may see a profile that is their own, one they invited, or one that invited them, and no other. |
| UserViews.ProfileVisibilityIsMutual | core/views/users.py:14-38 | Visibility is symmetric. A collection's owner and invitees see each other, and distinct users with no invite between them do not. |
| UserViews.GetUser | core/views/users.py:52-74 | A missing user is 404, and a profile the caller may not see is 403. Otherwise the full profile, with the email, goes exactly to its owner, and everyone else gets the public one. |
| UserViews.EmailStaysPrivate | core/views/users.py:69-72 | No other user ever receives a profile carrying the email. |
| UserViews.PutUser | core/views/users.py:76-88 | Only the user may update their profile: others get 403. A name longer than 32 characters after trimming, or holding a NUL, is 400. Neither writes anything. Otherwise the trimmed name is saved, possibly blank, and only that row changes. |
| UserViews.StoredNameFits | core/models/user.py:40 | A saved name fits the column: at most 32 characters, no NUL and no whitespace at either end. A name of only whitespace clears it. |
| UserViews.LongNameRefused | core/models/user.py:40 | A name of 33 non-blank characters is 400 and writes nothing. |
| FaqViews.CharFieldValue | core/serializers/faq.py:32-41 | A question or answer is accepted exactly when it is given, not blank after trimming `str.isspace` whitespace, within the maximum length and free of NUL. The accepted text is the trimmed input: non-empty, with no whitespace at either end and no NUL. |
| FaqViews.NoBreakSpaceQuestionRefused | core/serializers/faq.py:35 | A question of only a no-break space is blank and refused. |
| FaqViews.NulQuestionRefused | core/serializers/faq.py:35 | A question with a NUL inside is refused. |
| FaqViews.ListFaqs | core/views/faq.py:32-54 | A missing thing is 404, and a thing the caller may not see is 403, both with nothing listed. Every listed FAQ belongs to the thing. |
| FaqViews.ListShowsVisibleFaqs | core/views/faq.py:32-54 | The owner sees every FAQ of the thing. Anyone else sees exactly the visible ones. |
| FaqViews.GetFaq | core/views/faq.py:124-162 | A FAQ is returned as stored, and only to a caller who may see its thing. A caller who may not see the thing gets 403. A hidden FAQ goes only to the thing's owner or the questioner. |
| FaqViews.HiddenFaqLooksMissing | core/views/faq.py:150-159 | To anyone else a hidden FAQ answers exactly as a deleted one: 404. |
| FaqViews.ListedFaqOpens | core/views/faq.py:32-162 | Every FAQ in a caller's list opens for that caller. |
| FaqViews.CreateFaq | core/views/faq.py:56-113 | The checks run in order: a missing thing is 404, the owner is 400, a caller who may not see the thing is 403, and an invalid question is 400. A failing check writes nothing. Otherwise the new visible, unanswered FAQ is stored and its code joins the thing's list. |
| FaqViews.AskedQuestionIsListed | core/views/faq.py:81-88 | An asked question's code is on the thing's FAQ list, and the FAQ is listed both for the asker and for the owner. Every row stays stored under its own code. |
| FaqViews.VisibleFaqListed | core/views/faq.py:32-54 | A visible FAQ of a thing the caller may see is in the caller's list. |
| FaqViews.CreateFaqView | core/views/faq.py:56-113 | The create view on the tables has exactly the specified effect and answer. |
| FaqViews.AnswerFaq | core/views/faq.py:173-223 | A missing FAQ or thing is 404, anyone but the owner is 403, and an invalid answer is 400; each writes nothing. Otherwise only the answer changes. |
| FaqViews.AnswerMarksAnswered | core/views/faq.py:191-200 | Only the thing's owner answers. An accepted answer marks the FAQ answered and keeps its question, asker and visibility. |
| FaqViews.AnswerFaqView | core/views/faq.py:173-223 | `FAQAnswerView.post` on the tables has exactly the specified effect and answer. |
| FaqViews.SetVisibility | core/views/faq.py:237-293 | A missing FAQ or thing is 404, anyone but the owner is 403, and an unknown action is 400; each writes nothing. "hide" and "show" set visibility and nothing else. |
| FaqViews.HideThenShow | core/views/faq.py:245-293 | A hidden FAQ drops out of other users' lists and does not open for anyone but the owner and the questioner. Showing a FAQ that was visible gives back the original state. |
| FaqViews.SetVisibilityView | core/views/faq.py:245-293 | `FAQVisibilityView.post` on the tables has exactly the specified effect and answer. |

## Left out

- Email delivery: every `send_mail` call and its text are I/O. A request's answer is modelled, not the mail.
- JWT and session issuance, login, logout, token blacklisting, rate limiting, security logging and the client IP: these are foreign libraries or side channels. A resolved login token answers 200 without the issued tokens.
- Lower-casing of the requested email: emails are compared as given.
- Request parsing: bodies arrive as the fields the model reads, with a date or quantity that fails to parse given as `Unparseable`.
- `thing_fee`: it is a decimal the views never compute with.
- `validate_headline` and `SafeHeadlineField`: they depend on `bleach.clean`, which is not part of this model. Thing bodies arrive validated.
- `core/views/collections.py`, `ThingListView.get`, `MeView` and `LogoutView`: these are CRUD plumbing and are not part of this model.
- Randomness and uniqueness of drawn codes: every code is a parameter. A code already in use gives 500, with any earlier, already committed writes kept.
- Concurrency and transactions: requests run one at a time. The read-then-insert race between the overlap check and the insert is not modelled.
- Time below the second: timestamps are whole seconds and dates whole days.
- Serializer output beyond the fields modelled: only the profile, the calendar rows and the accept answer's optional fields are projected.
- UserViews.PutUser: only the name is patched. Headline, thumbnail and hero image go through serializer plumbing that is not modelled, so a bad value in one of them, which would also be 400, is not modelled. A JSON null name is not modelled either.
- Bookings.StartDateLe: start-date order puts rows without a start date last, as PostgreSQL does in production. SQLite, used in development, puts them first; that order is not modelled.
- Text fields refuse lone surrogates in Django REST framework; a Dafny `char` is a Unicode scalar value, so such input cannot arise in the model.
- FaqViews.ListFaqs: the list is a set, because the query gives no order.
- The type names of things (`*_ARTICLE`) and of bookings (`*_THING`) are one enum. The list fields `collection_things`/`collection_articles` and `user_shared_collections`/`user_invited_collections` are each one field.
- `Thing.can_view` is not defined in `core/models/thing.py`. It is modelled as the owner, or an invited user of a collection listing the thing, while the thing is available.
- A booking answered 100 hours after the request is refused with 401, not 400, because its 24-hour token expires before the 72-hour booking window closes. The code's behaviour is what is modelled.
- The bulk `update()` in `expire_old_pending` is one assignment of the swept table, not a row-by-row loop.

## Findings

| source | as written | input that shows it | evidently intended | confidence | as-written member | corrected member |
|---|---|---|---|---|---|---|
| core/validators.py:22 | the pattern is anchored at the end with `$`, which also matches just before a final newline, so a valid id followed by one newline is accepted | `validate_image_id("abc\n")` returns `"abc\n"`; no request reaches it, because the image id fields trim their text first | only letters, digits, `_` and `-` are accepted (`\Z` or `re.fullmatch`) | not executed | Validators.ValidateImageIdAsWritten, Validators.TrailingNewlineAccepted | Validators.ValidateImageId |
