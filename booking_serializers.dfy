/**
 * Input validation for booking requests (`core/serializers/booking.py`): the
 * date range of a date-based request and the delivery date and quantity of an
 * order. Dates are day numbers; `today` is a parameter.
 *
 * As in the serializer framework, each field is checked on its own first and
 * every failing field reports an error; the cross-field check of the date
 * range runs only when no field failed.
 */
module BookingSerializers {
  import opened Wrappers

  /** A raw input field: absent, present but not parseable, or parsed. */
  datatype Field<T> = Absent | Unparseable | Given(value: T)

  datatype FieldError =
    | Required     // "This field is required."
    | Invalid      // not a date / not an integer
    | InPast       // "... must be today or in the future"
    | BeforeStart  // "End date must be on or after start date"
    | TooSmall     // below the minimum value
    | TooLarge     // above the maximum value

  type Errors = map<string, FieldError>

  /** The error of a field that must hold a day no earlier than `today`, if any. */
  function DayNotInPast(f: Field<int>, today: int): (e: Option<FieldError>)
    ensures e == None <==> f.Given? && today <= f.value
    ensures f == Absent ==> e == Some(Required)
  {
    match f
    case Absent => Some(Required)
    case Unparseable => Some(Invalid)
    case Given(d) => if d < today then Some(InPast) else None
  }

  /** The error of a required date field with no further check, if any. */
  function AnyDay(f: Field<int>): (e: Option<FieldError>)
    ensures e == None <==> f.Given?
  {
    match f
    case Absent => Some(Required)
    case Unparseable => Some(Invalid)
    case Given(_) => None
  }

  /** Records the error of one field, if it has one. */
  function AddError(errs: Errors, key: string, e: Option<FieldError>): (r: Errors)
    ensures e.Some? ==> key in r && r[key] == e.value
    ensures forall k :: k != key ==> (k in r <==> k in errs)
    ensures e.None? ==> r == errs
  {
    if e.Some? then errs[key := e.value] else errs
  }

  /**
   * `ThingRequestWithDatesSerializer`: accepts exactly the ranges with
   * `today <= start <= end`. A missing or bad field reports an error on that
   * field (both fields when both are bad); an end before the start reports
   * on `end_date`, once both fields are good.
   */
  function ValidateDates(start: Field<int>, end: Field<int>, today: int): (r: Result<(int, int), Errors>)
    ensures r.Success? <==> start.Given? && end.Given? && today <= start.value <= end.value
    ensures r.Success? ==> r.value == (start.value, end.value)
    ensures r.Failure? ==> ("start_date" in r.error <==> !(start.Given? && today <= start.value))
    ensures r.Failure? ==> ("end_date" in r.error <==>
      !end.Given? || (start.Given? && today <= start.value && end.value < start.value))
    ensures r.Failure? ==> r.error.Keys <= {"start_date", "end_date"}
  {
    var fieldErrors := AddError(AddError(map[], "start_date", DayNotInPast(start, today)), "end_date", AnyDay(end));
    if fieldErrors != map[] then Failure(fieldErrors)
    else if end.value < start.value then Failure(map["end_date" := BeforeStart])
    else Success((start.value, end.value))
  }

  /** The missing-fields example of the booking tests: an empty request reports both dates as required. */
  lemma EmptyDateRequestReportsBothFields(today: int)
    ensures ValidateDates(Absent, Absent, today) == Failure(map["start_date" := Required, "end_date" := Required])
  {
  }

  /** A one-day range starting today is accepted; a range ending the day before it starts is not. */
  lemma SameDayRangeAccepted(today: int)
    ensures ValidateDates(Given(today), Given(today), today) == Success((today, today))
    ensures ValidateDates(Given(today + 1), Given(today), today) == Failure(map["end_date" := BeforeStart])
  {
  }

  const MinQuantity: int := 1
  const MaxQuantity: int := 99

  /** The error of the quantity field, if any. */
  function QuantityInRange(f: Field<int>): (e: Option<FieldError>)
    ensures e == None <==> f.Given? && MinQuantity <= f.value <= MaxQuantity
  {
    match f
    case Absent => Some(Required)
    case Unparseable => Some(Invalid)
    case Given(q) =>
      if q < MinQuantity then Some(TooSmall)
      else if q > MaxQuantity then Some(TooLarge)
      else None
  }

  /**
   * `ThingOrderSerializer`: accepts a delivery day no earlier than today and a
   * quantity from 1 to 99; otherwise every failing field reports an error.
   */
  function ValidateOrder(delivery: Field<int>, quantity: Field<int>, today: int): (r: Result<(int, nat), Errors>)
    ensures r.Success? <==> delivery.Given? && today <= delivery.value && quantity.Given? && 1 <= quantity.value <= 99
    ensures r.Success? ==> r.value == (delivery.value, quantity.value as nat)
    ensures r.Failure? ==> ("delivery_date" in r.error <==> !(delivery.Given? && today <= delivery.value))
    ensures r.Failure? ==> ("quantity" in r.error <==> !(quantity.Given? && 1 <= quantity.value <= 99))
    ensures r.Failure? ==> r.error.Keys <= {"delivery_date", "quantity"}
  {
    var errs := AddError(AddError(map[], "delivery_date", DayNotInPast(delivery, today)), "quantity", QuantityInRange(quantity));
    if errs != map[] then Failure(errs) else Success((delivery.value, quantity.value as nat))
  }
}
