/**
 * The older reservation request record (`core/models/reservation.py`), which
 * bookings have since replaced: PENDING -> ACCEPTED | REJECTED, with no
 * expired state, and valid for 72 hours.
 */
module Reservations {

  datatype ReservationStatus = Pending | Accepted | Rejected

  /** A request stays open this many hours (the deployment sets no other value). */
  const ReservationExpiryHours: int := 72
  const SecondsPerHour: int := 3600

  class ReservationRequest {
    const code: string
    const created: int
    const thingCode: string
    const requesterCode: string
    const requesterEmail: string
    const ownerCode: string
    var status: ReservationStatus

    /** A new request starts PENDING. */
    constructor (code: string, created: int, thingCode: string, requesterCode: string, requesterEmail: string, ownerCode: string)
      ensures this.code == code && this.created == created && this.thingCode == thingCode
      ensures this.requesterCode == requesterCode && this.requesterEmail == requesterEmail
      ensures this.ownerCode == ownerCode
      ensures status == Pending
      ensures IsValid(created) && !IsValid(created + ReservationExpiryHours * SecondsPerHour)
    {
      this.code := code;
      this.created := created;
      this.thingCode := thingCode;
      this.requesterCode := requesterCode;
      this.requesterEmail := requesterEmail;
      this.ownerCode := ownerCode;
      status := Pending;
    }

    /** `is_valid()`: still pending, and `now` is before the expiry time. */
    predicate IsValid(now: int)
      reads this
    {
      now < created + ReservationExpiryHours * SecondsPerHour && status == Pending
    }

    /** `accept()`: the status becomes ACCEPTED; the request is no longer valid at any time. */
    method Accept()
      modifies this
      ensures status == Accepted
      ensures forall now :: !IsValid(now)
    {
      status := Accepted;
    }

    /** `reject()`: the status becomes REJECTED; the request is no longer valid at any time. */
    method Reject()
      modifies this
      ensures status == Rejected
      ensures forall now :: !IsValid(now)
    {
      status := Rejected;
    }
  }

  /** A request valid at some time was valid at every earlier time, and no request stays valid for 72 hours. */
  lemma ValidityIsAWindow(r: ReservationRequest, now: int, earlier: int)
    requires earlier <= now
    ensures r.IsValid(now) ==> r.IsValid(earlier)
    ensures !r.IsValid(r.created + ReservationExpiryHours * SecondsPerHour)
  {
  }
}
