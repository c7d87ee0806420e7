/** The reservation service: the status state machine and the operations that
    guard and then rewrite the reservation table. Each operation takes the table
    and returns the new table together with the Go `(value, error)` result. */
module BookingService {
  import opened Wrappers
  import opened BookingModel
  import opened BookingRepository

  datatype ServiceError =
    | ReservationNotFound
    | PropertyUnavailable
    | InsertFailed
    | PaymentInitiationFailed(reason: string)
    | CannotUpdateCompletedOrCancelled
    | CannotDeleteCompleted
    | InvalidStatusValue
    | InvalidCurrentStatus
    | TransitionNotAllowed(from: string, to: string)

  /** The table after an operation, and what the operation returned. */
  datatype Outcome<+T> = Outcome(store: Store, result: Result<T, ServiceError>)

  /** How the service reports a repository error. */
  function FromRepo(e: RepoError): (err: ServiceError)
  {
    match e
    case DuplicateKey(_) => InsertFailed
    case RowNotFound => ReservationNotFound
  }

  // ---------------------------------------------------------------------------
  // Status state machine

  /** The `allowedTransitions` table of `validateStatusTransition`. */
  const AllowedTransitions: map<string, seq<string>> := map[
    Pending := [Confirmed, Cancelled, Rejected],
    Confirmed := [CheckedIn, Cancelled],
    CheckedIn := [CheckedOut, Cancelled],
    CheckedOut := [Completed],
    Cancelled := [],
    Completed := [],
    Rejected := []
  ]

  /** The same table written as a set of (from, to) pairs. */
  const Moves: set<(string, string)> := {
    ("pending", "confirmed"), ("pending", "cancelled"), ("pending", "rejected"),
    ("confirmed", "checked_in"), ("confirmed", "cancelled"),
    ("checked_in", "checked_out"), ("checked_in", "cancelled"),
    ("checked_out", "completed")
  }

  /** `validateStatusTransition`: staying put is always allowed; otherwise the current
      status must be in the table and list the target. */
  function ValidateStatusTransition(current: string, next: string): (r: Result<(), ServiceError>)
    ensures r.Ok? <==> current == next || (current, next) in Moves
    ensures current != next && current !in GuestFlowStatuses ==> r == Err(InvalidCurrentStatus)
    ensures current != next && current in GuestFlowStatuses && r.Err? ==>
      r == Err(TransitionNotAllowed(current, next))
  {
    if current == next then Ok(())
    else if current !in AllowedTransitions then Err(InvalidCurrentStatus)
    else if next in AllowedTransitions[current] then Ok(())
    else Err(TransitionNotAllowed(current, next))
  }

  /** Position of a status along the guest flow. */
  function Rank(s: string): (rank: int)
  {
    if s == Pending then 0
    else if s == Confirmed then 1
    else if s == CheckedIn then 2
    else if s == CheckedOut then 3
    else if s == Cancelled || s == Completed || s == Rejected then 4
    else -1
  }

  /** Every allowed move that changes the status goes strictly forward along
      pending < confirmed < checked_in < checked_out < {completed, cancelled, rejected}. */
  lemma TransitionsAdvance(current: string, next: string)
    requires ValidateStatusTransition(current, next).Ok? && current != next
    ensures current in GuestFlowStatuses && next in GuestFlowStatuses
    ensures Rank(current) < Rank(next)
  {
  }

  /** Cancelled, completed and rejected admit no target but themselves. */
  lemma TerminalStatuses(current: string, next: string)
    requires current == Cancelled || current == Completed || current == Rejected
    ensures ValidateStatusTransition(current, next).Ok? <==> next == current
  {
  }

  /** A status outside the table can only stay where it is. */
  lemma UnknownStatusStuck(current: string, next: string)
    requires current !in GuestFlowStatuses
    ensures ValidateStatusTransition(current, next).Ok? <==> next == current
  {
  }

  /** A sequence of statuses each reachable from its predecessor. */
  predicate ValidPath(p: seq<string>)
  {
    forall i | 0 <= i < |p| - 1 :: ValidateStatusTransition(p[i], p[i + 1]).Ok?
  }

  /** Along a valid path a status either stays or moves strictly forward. */
  lemma {:induction false} PathAdvances(p: seq<string>, j: nat)
    requires ValidPath(p) && j < |p|
    ensures p[j] == p[0] || (p[0] in GuestFlowStatuses && p[j] in GuestFlowStatuses && Rank(p[0]) < Rank(p[j]))
  {
    if j > 0 {
      PathAdvances(p, j - 1);
      var first, before, here := p[0], p[j - 1], p[j];
      assert ValidateStatusTransition(before, here).Ok?;
      if before != here {
        TransitionsAdvance(before, here);
        if before != first {
          assert Rank(first) < Rank(before) < Rank(here);
        }
      }
    }
  }

  /** The machine has no cycles other than self-loops: a valid path that returns
      to its starting status never left it. */
  lemma NoCycles(p: seq<string>)
    requires ValidPath(p) && |p| > 0 && p[|p| - 1] == p[0]
    ensures forall i | 0 <= i < |p| :: p[i] == p[0]
  {
    forall i | 0 <= i < |p|
      ensures p[i] == p[0]
    {
      PathAdvances(p, i);
      var suffix := p[i..];
      assert ValidPath(suffix) by {
        forall k | 0 <= k < |suffix| - 1
          ensures ValidateStatusTransition(suffix[k], suffix[k + 1]).Ok?
        {
          assert suffix[k] == p[i + k] && suffix[k + 1] == p[i + k + 1];
        }
      }
      PathAdvances(suffix, |suffix| - 1);
    }
  }

  // ---------------------------------------------------------------------------
  // Status updates

  /** `UpdateReservationStatus`: the target must be one of the seven guest-flow
      statuses, the row must exist, and the move must be in the table; then only
      the status and the update time change. */
  function UpdateReservationStatus(store: Store, id: int, status: string, now: Instant): (o: Outcome<Reservation>)
    requires WellFormed(store)
    ensures status !in GuestFlowStatuses ==> o == Outcome(store, Err(InvalidStatusValue))
    ensures status in GuestFlowStatuses && id !in store ==> o == Outcome(store, Err(ReservationNotFound))
    ensures o.result.Ok? <==>
      status in GuestFlowStatuses && id in store && (store[id].status == status || (store[id].status, status) in Moves)
    ensures o.result.Ok? ==> o.store == store[id := store[id].(status := status, updatedAt := now)]
    ensures o.result.Ok? ==> id in o.store && o.result.value == o.store[id]
    ensures o.result.Err? ==> o.store == store
    ensures WellFormed(o.store)
  {
    if status !in GuestFlowStatuses then Outcome(store, Err(InvalidStatusValue))
    else
      match BookingRepository.GetReservationByID(store, id)
      case None => Outcome(store, Err(ReservationNotFound))
      case Some(existing) =>
        match ValidateStatusTransition(existing.status, status)
        case Err(e) => Outcome(store, Err(e))
        case Ok(_) =>
          match BookingRepository.UpdateReservation(store, existing.(status := status, updatedAt := now))
          case Err(e) => Outcome(store, Err(FromRepo(e)))
          case Ok(w) => Outcome(w.store, Ok(w.row))
  }

  /** The payment flow's upper-case statuses are unknown to the state machine, so a
      reservation in CREATED, PAYMENT_REQUIRED or CONFIRMED can never have its status
      updated, whatever the target. */
  lemma PaymentStatusesAreStuck(store: Store, id: int, status: string, now: Instant)
    requires WellFormed(store) && id in store
    requires store[id].status in {Created, PaymentRequired, PaymentConfirmed}
    ensures UpdateReservationStatus(store, id, status, now).result.Err?
    ensures UpdateReservationStatus(store, id, status, now).store == store
  {
    assert store[id].status !in GuestFlowStatuses;
    if status in GuestFlowStatuses {
      assert store[id].status != status;
      UnknownStatusStuck(store[id].status, status);
    }
  }

  /** The guest-flow statuses the binding of a status-change request admits are
      exactly the ones the service does not refuse as an invalid value. */
  lemma BindingAgreesWithService(store: Store, id: int, status: string, now: Instant)
    requires WellFormed(store)
    ensures ValidStatusUpdate(StatusUpdateRequest(status)) <==>
      UpdateReservationStatus(store, id, status, now).result != Err(InvalidStatusValue)
  {
    if status in GuestFlowStatuses {
      var o := UpdateReservationStatus(store, id, status, now);
      if o.result.Err? {
        assert id in store ==>
          (o.result.error == InvalidCurrentStatus || o.result.error == TransitionNotAllowed(store[id].status, status));
      }
    }
  }

  /** `CancelReservation`. */
  function CancelReservation(store: Store, id: int, now: Instant): (o: Outcome<Reservation>)
    requires WellFormed(store)
    ensures o.result.Ok? <==> id in store && store[id].status in {Pending, Confirmed, CheckedIn, Cancelled}
    ensures o.result.Ok? ==> id in o.store && o.store[id].status == Cancelled
    ensures o.result.Ok? ==> o.store == store[id := store[id].(status := Cancelled, updatedAt := now)]
    ensures o.result.Err? ==> o.store == store
    ensures WellFormed(o.store)
  {
    UpdateReservationStatus(store, id, Cancelled, now)
  }

  /** `ConfirmReservation`. */
  function ConfirmReservation(store: Store, id: int, now: Instant): (o: Outcome<Reservation>)
    requires WellFormed(store)
    ensures o.result.Ok? <==> id in store && store[id].status in {Pending, Confirmed}
    ensures o.result.Ok? ==> id in o.store && o.store[id].status == Confirmed
    ensures o.result.Ok? ==> o.store == store[id := store[id].(status := Confirmed, updatedAt := now)]
    ensures o.result.Err? ==> o.store == store
    ensures WellFormed(o.store)
  {
    UpdateReservationStatus(store, id, Confirmed, now)
  }

  /** `CheckInReservation`. */
  function CheckInReservation(store: Store, id: int, now: Instant): (o: Outcome<Reservation>)
    requires WellFormed(store)
    ensures o.result.Ok? <==> id in store && store[id].status in {Confirmed, CheckedIn}
    ensures o.result.Ok? ==> id in o.store && o.store[id].status == CheckedIn
    ensures o.result.Ok? ==> o.store == store[id := store[id].(status := CheckedIn, updatedAt := now)]
    ensures o.result.Err? ==> o.store == store
    ensures WellFormed(o.store)
  {
    UpdateReservationStatus(store, id, CheckedIn, now)
  }

  /** `CheckOutReservation`. */
  function CheckOutReservation(store: Store, id: int, now: Instant): (o: Outcome<Reservation>)
    requires WellFormed(store)
    ensures o.result.Ok? <==> id in store && store[id].status in {CheckedIn, CheckedOut}
    ensures o.result.Ok? ==> id in o.store && o.store[id].status == CheckedOut
    ensures o.result.Ok? ==> o.store == store[id := store[id].(status := CheckedOut, updatedAt := now)]
    ensures o.result.Err? ==> o.store == store
    ensures WellFormed(o.store)
  {
    UpdateReservationStatus(store, id, CheckedOut, now)
  }

  // ---------------------------------------------------------------------------
  // Reads

  /** `GetReservationByID` of the service: a missing row becomes an error. */
  function GetReservationByID(store: Store, id: int): (r: Result<Reservation, ServiceError>)
    ensures r.Ok? <==> id in store
    ensures r.Ok? ==> r.value == store[id]
    ensures r.Err? ==> r.error == ReservationNotFound
  {
    match BookingRepository.GetReservationByID(store, id)
    case None => Err(ReservationNotFound)
    case Some(res) => Ok(res)
  }

  // ---------------------------------------------------------------------------
  // Create, update, delete

  /** `rand.IntN(1000000)`. */
  type RandomId = x: int | 0 <= x < 1000000

  /** The JSON body posted to the payment service. */
  datatype PaymentRequest = PaymentRequest(organizationId: int, reservationId: int, customerId: int, amount: real)

  /** What the payment service call produced: the response body, or a failure. */
  datatype GatewayResult = PaymentUrl(url: string) | GatewayFailure(reason: string)

  /** The row carries the request's fields, with `nil` maps stored as empty maps. */
  predicate CarriesRequest(row: Reservation, req: ReservationRequest)
  {
    && row.organizationId == req.organizationId
    && row.propertyId == req.propertyId
    && row.customerId == req.customerId
    && row.checkIn == req.checkIn
    && row.checkOut == req.checkOut
    && row.totalPrice == req.totalPrice
    && row.noOfGuests == req.noOfGuests
    && row.priceElements == OrEmpty(req.priceElements)
    && row.guestData == OrEmpty(req.guestData)
    && row.additionalRequests == OrEmpty(req.additionalRequests)
  }

  /** The row `CreateReservation` inserts before payment. */
  function NewReservation(req: ReservationRequest, id: int, now: Instant): (r: Reservation)
  {
    Reservation(
      id, req.organizationId, req.propertyId, req.customerId, req.checkIn, req.checkOut,
      Created, req.totalPrice, "", OrEmpty(req.priceElements), req.noOfGuests,
      OrEmpty(req.guestData), OrEmpty(req.additionalRequests), now, now)
  }

  /** `CreateReservation`: refuse on conflict, insert a CREATED row, then ask the
      payment service for a URL. A payment failure is reported as an error but the
      CREATED row stays; on success the row becomes PAYMENT_REQUIRED with the URL. */
  function CreateReservation(
    store: Store, req: ReservationRequest, freshId: RandomId, now: Instant,
    initiatePayment: PaymentRequest -> GatewayResult): (o: Outcome<Reservation>)
    ensures CheckPropertyAvailability(store, req.propertyId, req.checkIn, req.checkOut) ==>
      o == Outcome(store, Err(PropertyUnavailable))
    ensures !CheckPropertyAvailability(store, req.propertyId, req.checkIn, req.checkOut) && freshId in store ==>
      o == Outcome(store, Err(InsertFailed))
    ensures !CheckPropertyAvailability(store, req.propertyId, req.checkIn, req.checkOut) && freshId !in store ==>
      && o.store.Keys == store.Keys + {freshId}
      && (forall k | k in store :: o.store[k] == store[k])
      && CarriesRequest(o.store[freshId], req)
      && o.store[freshId].id == freshId
      && o.store[freshId].createdAt == now
      && o.store[freshId].updatedAt == now
      && match initiatePayment(PaymentRequest(req.organizationId, freshId, req.customerId, req.totalPrice))
         case GatewayFailure(reason) =>
           && o.result == Err(PaymentInitiationFailed(reason))
           && o.store[freshId].status == Created
           && o.store[freshId].paymentUrl == ""
         case PaymentUrl(url) =>
           && o.result == Ok(o.store[freshId])
           && o.store[freshId].status == PaymentRequired
           && o.store[freshId].paymentUrl == url
    ensures WellFormed(store) ==> WellFormed(o.store)
  {
    if CheckPropertyAvailability(store, req.propertyId, req.checkIn, req.checkOut) then
      Outcome(store, Err(PropertyUnavailable))
    else
      match BookingRepository.CreateReservation(store, NewReservation(req, freshId, now))
      case Err(e) => Outcome(store, Err(FromRepo(e)))
      case Ok(created) =>
        var row := created.row;
        match initiatePayment(PaymentRequest(row.organizationId, row.id, row.customerId, row.totalPrice))
        case GatewayFailure(reason) => Outcome(created.store, Err(PaymentInitiationFailed(reason)))
        case PaymentUrl(url) =>
          match BookingRepository.UpdateReservation(created.store, row.(paymentUrl := url, status := PaymentRequired, updatedAt := now))
          case Err(e) => Outcome(created.store, Err(FromRepo(e)))
          case Ok(updated) => Outcome(updated.store, Ok(updated.row))
  }

  /** `UpdateReservation`: refuse a missing row, a completed or cancelled one (a
      rejected one is NOT refused), and a stay that conflicts with another row;
      otherwise overwrite the editable fields. */
  function UpdateReservation(store: Store, id: int, req: ReservationRequest, now: Instant): (o: Outcome<Reservation>)
    requires WellFormed(store)
    ensures id !in store ==> o == Outcome(store, Err(ReservationNotFound))
    ensures id in store && store[id].status in {Completed, Cancelled} ==>
      o == Outcome(store, Err(CannotUpdateCompletedOrCancelled))
    ensures (id in store && store[id].status !in {Completed, Cancelled}
             && CheckPropertyAvailability(store - {id}, req.propertyId, req.checkIn, req.checkOut)) ==>
      o == Outcome(store, Err(PropertyUnavailable))
    ensures o.result.Ok? <==>
      (id in store && store[id].status !in {Completed, Cancelled}
       && !CheckPropertyAvailability(store - {id}, req.propertyId, req.checkIn, req.checkOut))
    ensures o.result.Ok? ==>
      && o.store.Keys == store.Keys
      && (forall k | k in store && k != id :: o.store[k] == store[k])
      && o.result.value == o.store[id]
      && CarriesRequest(o.store[id], req)
      && o.store[id].id == id
      && o.store[id].status == store[id].status
      && o.store[id].createdAt == store[id].createdAt
      && o.store[id].paymentUrl == store[id].paymentUrl
      && o.store[id].updatedAt == now
    ensures o.result.Err? ==> o.store == store
    ensures WellFormed(o.store)
  {
    ExcludingIsRemoval(store, id, req.propertyId, req.checkIn, req.checkOut);
    match BookingRepository.GetReservationByID(store, id)
    case None => Outcome(store, Err(ReservationNotFound))
    case Some(existing) =>
      if existing.status == Completed || existing.status == Cancelled then
        Outcome(store, Err(CannotUpdateCompletedOrCancelled))
      else if CheckPropertyAvailabilityExcluding(store, id, req.propertyId, req.checkIn, req.checkOut) then
        Outcome(store, Err(PropertyUnavailable))
      else
        var edited := existing.(
          organizationId := req.organizationId,
          propertyId := req.propertyId,
          customerId := req.customerId,
          checkIn := req.checkIn,
          checkOut := req.checkOut,
          totalPrice := req.totalPrice,
          priceElements := OrEmpty(req.priceElements),
          noOfGuests := req.noOfGuests,
          guestData := OrEmpty(req.guestData),
          additionalRequests := OrEmpty(req.additionalRequests),
          updatedAt := now);
        match BookingRepository.UpdateReservation(store, edited)
        case Err(e) => Outcome(store, Err(FromRepo(e)))
        case Ok(w) => Outcome(w.store, Ok(w.row))
  }

  /** `DeleteReservation`: refuse a missing or completed row; otherwise remove
      exactly that row. */
  function DeleteReservation(store: Store, id: int): (o: Outcome<()>)
    ensures id !in store ==> o == Outcome(store, Err(ReservationNotFound))
    ensures id in store && store[id].status == Completed ==> o == Outcome(store, Err(CannotDeleteCompleted))
    ensures o.result.Ok? <==> id in store && store[id].status != Completed
    ensures o.result.Ok? ==>
      && id !in o.store
      && (forall k :: k != id ==> (k in o.store <==> k in store))
      && (forall k | k in o.store :: o.store[k] == store[k])
    ensures WellFormed(store) ==> WellFormed(o.store)
  {
    match BookingRepository.GetReservationByID(store, id)
    case None => Outcome(store, Err(ReservationNotFound))
    case Some(existing) =>
      if existing.status == Completed then Outcome(store, Err(CannotDeleteCompleted))
      else
        match BookingRepository.DeleteReservation(store, id)
        case Err(e) => Outcome(store, Err(FromRepo(e)))
        case Ok(s) => Outcome(s, Ok(()))
  }

  // ---------------------------------------------------------------------------
  // Payment confirmation

  /** `ConfirmPayment` as the source is written: the repository reports a missing
      row as `nil` without an error, and the service then assigns through that nil
      pointer, which panics. */
  datatype ConfirmRun = Returned(outcome: Outcome<()>) | NilDereference

  function ConfirmPaymentAsWritten(store: Store, id: int, now: Instant): (run: ConfirmRun)
    requires WellFormed(store)
    ensures id !in store <==> run.NilDereference?
    ensures run.Returned? ==>
      (run.outcome.result.Ok? && id in run.outcome.store && run.outcome.store[id].status == PaymentConfirmed)
    ensures run.Returned? ==> WellFormed(run.outcome.store)
  {
    match BookingRepository.GetReservationByID(store, id)
    case None => NilDereference
    case Some(existing) =>
      match BookingRepository.UpdateReservation(store, existing.(status := PaymentConfirmed, updatedAt := now))
      case Err(e) => Returned(Outcome(store, Err(FromRepo(e))))
      case Ok(_) => Returned(Outcome(store[id := existing.(status := PaymentConfirmed, updatedAt := now)], Ok(())))
  }

  /** `ConfirmPayment` with the missing row reported as "reservation not found".
      On an existing row the status becomes CONFIRMED whatever it was, without
      consulting the state machine. */
  function ConfirmPayment(store: Store, id: int, now: Instant): (o: Outcome<()>)
    requires WellFormed(store)
    ensures id !in store ==> o == Outcome(store, Err(ReservationNotFound))
    ensures id in store ==>
      (o.result.Ok? && o.store == store[id := store[id].(status := PaymentConfirmed, updatedAt := now)])
    ensures WellFormed(o.store)
  {
    match BookingRepository.GetReservationByID(store, id)
    case None => Outcome(store, Err(ReservationNotFound))
    case Some(existing) =>
      match BookingRepository.UpdateReservation(store, existing.(status := PaymentConfirmed, updatedAt := now))
      case Err(e) => Outcome(store, Err(FromRepo(e)))
      case Ok(_) => Outcome(store[id := existing.(status := PaymentConfirmed, updatedAt := now)], Ok(()))
  }

  /** Wherever it does not panic, the source's `ConfirmPayment` agrees with the
      corrected one. */
  lemma ConfirmPaymentAgrees(store: Store, id: int, now: Instant)
    requires WellFormed(store) && id in store
    ensures ConfirmPaymentAsWritten(store, id, now) == Returned(ConfirmPayment(store, id, now))
  {
  }

  /** Redelivery of a payment event is harmless: the second confirmation succeeds
      and changes nothing but the update time. */
  lemma ConfirmPaymentIdempotent(store: Store, id: int, t1: Instant, t2: Instant)
    requires WellFormed(store) && id in store
    ensures var first := ConfirmPayment(store, id, t1);
      var second := ConfirmPayment(first.store, id, t2);
      && second.result.Ok?
      && second.store[id].status == PaymentConfirmed
      && second.store == first.store[id := first.store[id].(updatedAt := t2)]
  {
  }
}
