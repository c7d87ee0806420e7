/** Entities of the booking package: the stored reservation, the request bodies
    accepted for creation, update and status change, and the response shape. */
module BookingModel {

  /** An instant on a common time line; `0` plays the role of Go's zero `time.Time`. */
  type Instant = int

  /** The contents of a free-form JSON value. The core never inspects it. */
  datatype Json =
    | JNull
    | JBool(b: bool)
    | JNumber(n: real)
    | JString(s: string)
    | JArray(items: seq<Json>)
    | JObject(fields: map<string, Json>)

  /** A Go `map[string]interface{}`, which may be `nil`. */
  datatype Attributes = NilMap | Attrs(entries: map<string, Json>)

  /** The service replaces a `nil` map by an empty one before persisting it. */
  function OrEmpty(a: Attributes): (r: Attributes)
    ensures r.Attrs?
    ensures a.Attrs? ==> r == a
    ensures a.NilMap? ==> r.entries == map[]
  {
    match a
    case NilMap => Attrs(map[])
    case Attrs(_) => a
  }

  /** A stored reservation row. */
  datatype Reservation = Reservation(
    id: int,
    organizationId: int,
    propertyId: int,
    customerId: int,
    checkIn: Instant,
    checkOut: Instant,
    status: string,
    totalPrice: real,
    paymentUrl: string,
    priceElements: Attributes,
    noOfGuests: int,
    guestData: Attributes,
    additionalRequests: Attributes,
    createdAt: Instant,
    updatedAt: Instant)

  /** The body of a create or update request. */
  datatype ReservationRequest = ReservationRequest(
    organizationId: int,
    propertyId: int,
    customerId: int,
    checkIn: Instant,
    checkOut: Instant,
    noOfGuests: int,
    totalPrice: real,
    priceElements: Attributes,
    guestData: Attributes,
    additionalRequests: Attributes)

  /** What the HTTP layer returns for a reservation: every column but the payment URL. */
  datatype ReservationResponse = ReservationResponse(
    id: int,
    organizationId: int,
    propertyId: int,
    customerId: int,
    checkIn: Instant,
    checkOut: Instant,
    status: string,
    totalPrice: real,
    priceElements: Attributes,
    noOfGuests: int,
    guestData: Attributes,
    additionalRequests: Attributes,
    createdAt: Instant,
    updatedAt: Instant)

  /** The body of a status-change request. */
  datatype StatusUpdateRequest = StatusUpdateRequest(status: string)

  // The seven lower-case statuses of the guest flow.
  const Pending := "pending"
  const Confirmed := "confirmed"
  const CheckedIn := "checked_in"
  const CheckedOut := "checked_out"
  const Cancelled := "cancelled"
  const Completed := "completed"
  const Rejected := "rejected"

  // The upper-case statuses written by the payment flow.
  const Created := "CREATED"
  const PaymentRequired := "PAYMENT_REQUIRED"
  const PaymentConfirmed := "CONFIRMED"

  /** The values the `oneof` binding of a status-change request accepts. */
  const GuestFlowStatuses: set<string> :=
    {Pending, Confirmed, CheckedIn, CheckedOut, Cancelled, Completed, Rejected}

  /** The gin `binding` tags of a create/update request: `required` refuses a
      field's zero value, `min=1` and `min=0` bound the guest count and the price. */
  predicate ValidRequest(req: ReservationRequest)
  {
    && req.organizationId != 0
    && req.propertyId != 0
    && req.customerId != 0
    && req.checkIn != 0
    && req.checkOut != 0
    && req.noOfGuests != 0 && req.noOfGuests >= 1
    && req.totalPrice != 0.0 && req.totalPrice >= 0.0
  }

  /** The gin `binding` tag of a status-change request: `required,oneof=...`. */
  predicate ValidStatusUpdate(req: StatusUpdateRequest)
  {
    req.status != "" && req.status in GuestFlowStatuses
  }

  /** A status-change request is accepted exactly for the seven guest-flow statuses. */
  lemma StatusUpdateValidIff(s: string)
    ensures ValidStatusUpdate(StatusUpdateRequest(s)) <==>
      s == "pending" || s == "confirmed" || s == "checked_in" || s == "checked_out"
      || s == "cancelled" || s == "completed" || s == "rejected"
  {
  }

  /** A request that passes binding has at least one guest and a non-negative price. */
  lemma ValidRequestBounds(req: ReservationRequest)
    requires ValidRequest(req)
    ensures req.noOfGuests >= 1 && req.totalPrice >= 0.0
    ensures req.organizationId != 0 && req.propertyId != 0 && req.customerId != 0
    ensures req.checkIn != 0 && req.checkOut != 0
  {
  }

  /** Binding never compares the two dates: a request whose check-out is not after
      its check-in is accepted. */
  lemma CheckOutOrderNotRequired()
    ensures exists req :: ValidRequest(req) && req.checkOut < req.checkIn
  {
    var req := ReservationRequest(1, 1, 1, 10, 5, 1, 1.0, NilMap, NilMap, NilMap);
    assert ValidRequest(req) && req.checkOut < req.checkIn;
  }

  /** `required` on a float refuses its zero value, so a free stay cannot be requested
      although `min=0` admits zero. */
  lemma ZeroPriceRejected(req: ReservationRequest)
    requires req.totalPrice == 0.0
    ensures !ValidRequest(req)
  {
  }

  /** The response view of a reservation. */
  function ToResponse(r: Reservation): (resp: ReservationResponse)
    ensures resp.id == r.id && resp.organizationId == r.organizationId
    ensures resp.propertyId == r.propertyId && resp.customerId == r.customerId
    ensures resp.checkIn == r.checkIn && resp.checkOut == r.checkOut
    ensures resp.status == r.status
    ensures resp.totalPrice == r.totalPrice && resp.noOfGuests == r.noOfGuests
    ensures resp.priceElements == r.priceElements && resp.guestData == r.guestData
    ensures resp.additionalRequests == r.additionalRequests
    ensures resp.createdAt == r.createdAt && resp.updatedAt == r.updatedAt
  {
    ReservationResponse(
      r.id, r.organizationId, r.propertyId, r.customerId, r.checkIn, r.checkOut,
      r.status, r.totalPrice, r.priceElements, r.noOfGuests, r.guestData,
      r.additionalRequests, r.createdAt, r.updatedAt)
  }

  /** The response loses exactly the payment URL: two reservations have the same
      response iff they agree on every other column. */
  lemma ToResponseForgetsOnlyPaymentUrl(a: Reservation, b: Reservation)
    ensures ToResponse(a) == ToResponse(b) <==> a.(paymentUrl := "") == b.(paymentUrl := "")
  {
    if ToResponse(a) == ToResponse(b) {
      var ra, rb := ToResponse(a), ToResponse(b);
      assert ra.id == rb.id && ra.status == rb.status;
    }
  }
}
