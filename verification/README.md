# Booking service reservation lifecycle in Dafny

This project models the reservation lifecycle of the booking service. It covers
five parts:

- the conflict query that stops a property being double-booked;
- the status state machine behind `UpdateReservationStatus`;
- the service operations that guard and then rewrite the reservation table
  (create with its payment step, update, delete, status change, payment
  confirmation);
- the repository's reads and ordered listings;
- the Kafka consumer rule that turns a successful payment event into a
  `ConfirmPayment` call.

Postgres, gin and Kafka are removed. The `reservation` table is a
`map<int, Reservation>` keyed by primary key (`BookingRepository.Store`).
Operations never mutate anything: each takes the table and returns its answer.

- A service operation is a function to the new table plus the Go
  `(value, error)` result (`BookingService.Outcome`).
- A repository write is a function to `Result<Written, RepoError>`: the new
  table and the row written, or the repository's error.
- The listings and the consumer loop are methods, because they loop. They
  return their rows, or their calls and final table, as out-parameters.

The current time, the random id and the payment service's answer are
parameters. The consumer takes one clock reading per delivery.

Modules, one per source file or concern:

- `Wrappers` (`wrappers.dfy`): `Option` and `Result`.
- `BookingModel` (`booking_model.dfy`): `Reservation`, `ReservationRequest`,
  `ReservationResponse`, `StatusUpdateRequest`, the gin binding rules as
  predicates, and `ToResponse`.
- `BookingRepository` (`booking_repository.dfy`): get, insert, update and delete
  over the map; the three-clause conflict query; the two ordered listings.
- `BookingService` (`booking_service.dfy`): `validateStatusTransition` and the
  service operations.
- `BookingInvariants` (`booking_invariants.dfy`): which operations keep the table
  free of overlapping active stays on one property.
- `KafkaConsumer` (`kafka_consumer.dfy`): the event envelope types and the
  consumer loop.

Modelling choices where the source disagrees with itself:

- Ids are `int`. The service and repository use `int`. `booking_model.go`
  declares `uuid.UUID`.
- `Reservation` has a `paymentUrl` field. The repository and service read and
  write `PaymentURL`, but `booking_model.go` does not declare it. The repository's
  `SELECT` lists also omit `payment_url`. The model assumes a read returns the
  stored URL.
- `status` is a `string`. `CreateReservation` and `ConfirmPayment` write
  `CREATED`, `PAYMENT_REQUIRED` and `CONFIRMED`. The transition table only knows
  the seven lower-case statuses. `PaymentStatusesAreStuck` shows the effect.
- The store invariant `WellFormed` says every row sits under its own `id`. The
  service operations that write back a row they read require it. Every
  operation that writes the table states that it preserves it. For the
  repository writes and for service create and delete, this holds whenever the
  input table is well formed. `ConfirmPaymentAsWritten` preserves it whenever it
  returns, and `ConsumeAsWritten` leaves a well-formed table, whether or not it
  panics.
- Instants are integers. `0` stands for Go's zero `time.Time`, which gin's
  `required` refuses.
- The free-form JSON maps are `Attributes`: either `NilMap` or a map of opaque
  `Json` values. The core never looks inside them.
- Prices are `real`. They are carried through and never computed.
- The consumer's `int(ReservationId)` conversion from `int64` is the identity.
  This holds on the 64-bit platforms the service targets.

## Model

| member | source | states |
|---|---|---|
| BookingModel.OrEmpty | internal/booking/booking_service.go:83-92 | a nil map becomes an empty map; a non-nil map is kept as is |
| BookingModel.ValidRequest | internal/booking/booking_model.go:29-35 | the binding of a create or update request: organization, property and customer ids and both dates are non-zero, at least one guest, and a non-zero, non-negative total price |
| BookingModel.ValidStatusUpdate | internal/booking/booking_model.go:67 | the binding of a status-change request: the status is non-empty and one of the seven guest-flow statuses |
| BookingModel.StatusUpdateValidIff | internal/booking/booking_model.go:67 | a status-change request passes binding iff its status is one of pending, confirmed, checked_in, checked_out, cancelled, completed, rejected |
| BookingModel.ValidRequestBounds | internal/booking/booking_model.go:29-35 | a request that passes binding has organization, property, customer, check-in and check-out set, at least one guest and a non-negative price |
| BookingModel.CheckOutOrderNotRequired | internal/booking/booking_model.go:29-35 | binding accepts some request whose check-out is before its check-in |
| BookingModel.ZeroPriceRejected | internal/booking/booking_model.go:35 | `required` refuses a total price of exactly zero, although `min=0` would admit it |
| BookingModel.ToResponse | internal/booking/booking_model.go:71-88 | the response copies id, organization, property, customer, both dates, status, price, guest count, the three maps and both timestamps unchanged |
| BookingModel.ToResponseForgetsOnlyPaymentUrl | internal/booking/booking_model.go:41-88 | two reservations have equal responses iff they agree on every column except the payment URL, so the URL is never exposed |
| BookingRepository.GetReservationByID | internal/booking/booking_repository.go:47-72 | returns the stored row when the id is present, and nothing (without an error) when it is absent |
| BookingRepository.CreateReservation | internal/booking/booking_repository.go:74-129 | an insert under a taken id fails; otherwise exactly the new row is added and every other row is kept |
| BookingRepository.UpdateReservation | internal/booking/booking_repository.go:131-186 | an absent id gives "reservation not found"; otherwise only that row is replaced, its `created_at` is kept, and the key set is unchanged |
| BookingRepository.DeleteReservation | internal/booking/booking_repository.go:188-202 | an absent id gives "reservation not found"; otherwise exactly that id is removed and every other row is untouched |
| BookingRepository.CheckPropertyAvailability | internal/booking/booking_repository.go:205-227 | the conflict query: true (a conflict) iff some stored row of the same property, not cancelled or rejected, meets the requested dates by one of the three range clauses |
| BookingRepository.CheckPropertyAvailabilityExcluding | internal/booking/booking_repository.go:230-253 | the same conflict query with the row under the given id left out |
| BookingRepository.RangeClashIsOverlap | internal/booking/booking_repository.go:212-216 | for non-empty stays the three range clauses hold iff the half-open ranges overlap |
| BookingRepository.OverlapImpliesClash | internal/booking/booking_repository.go:212-216 | for any two stays, empty or reversed ones included, half-open overlap implies that one of the three range clauses holds |
| BookingRepository.ZeroLengthStaysClash | internal/booking/booking_repository.go:212-216 | without non-empty stays the equivalence fails: two zero-length stays at one instant clash but do not overlap |
| BookingRepository.CheckPropertyAvailabilityIsOverlap | internal/booking/booking_repository.go:205-227 | for a proper request and proper active stays of that property (other rows may hold any dates) the query is true (a conflict) iff some active row of the same property overlaps the requested half-open range |
| BookingRepository.BackToBackNeverClash | internal/booking/booking_repository.go:213-215 | for two non-empty stays, one that starts when the other ends, or ends when the other starts, does not clash with it |
| BookingRepository.EmptyOrReversedBoundaryRequestClashes | internal/booking/booking_repository.go:213-215 | for a proper stored stay, a zero-length request at either of its ends clashes with it, and a reversed request that starts where the stay ends clashes iff it ends after the stay begins |
| BookingRepository.ExcludingIsRemoval | internal/booking/booking_repository.go:230-253 | the query that excludes an id equals the plain query on the table without that id |
| BookingRepository.InactiveRowNeverBlocks | internal/booking/booking_repository.go:210-211 | a cancelled or rejected row changes no answer of the conflict query: storing it is the same as not storing it |
| BookingRepository.InsertByCheckIn | internal/booking/booking_repository.go:364 | inserting into a listing sorted by check-in keeps it sorted and adds exactly the one row |
| BookingRepository.AscendingIsSorted | internal/booking/booking_repository.go:364 | a listing in which each row is no earlier than its predecessor is sorted by check-in between any two positions |
| BookingRepository.CollectByCheckIn | internal/booking/booking_repository.go:364 | the listing is sorted by check-in and is, as a multiset, exactly the set of selected rows |
| BookingRepository.GetUpcomingReservations | internal/booking/booking_repository.go:356-379 | lists exactly the stored rows with check-in strictly after now and status not cancelled, rejected or completed, each once, ascending by check-in |
| BookingRepository.GetReservationsByDateRange | internal/booking/booking_repository.go:382-404 | lists exactly the stored rows with check-in in [start, end], both ends included and check-out ignored, each once, ascending by check-in |
| BookingService.ValidateStatusTransition | internal/booking/booking_service.go:378-406 | succeeds iff the status stays put or the (from, to) pair is one of the eight table moves; an unknown current status fails as "invalid current status", a known one as "not allowed from X to Y" |
| BookingService.TransitionsAdvance | internal/booking/booking_service.go:380-388 | every allowed move that changes the status goes between guest-flow statuses and strictly forward in pending < confirmed < checked_in < checked_out < {completed, cancelled, rejected} |
| BookingService.TerminalStatuses | internal/booking/booking_service.go:385-387 | from cancelled, completed or rejected the only allowed target is the same status |
| BookingService.UnknownStatusStuck | internal/booking/booking_service.go:390-397 | from a status outside the table the only allowed target is the same status |
| BookingService.PathAdvances | internal/booking/booking_service.go:380-388 | along any chain of allowed moves each status equals the first or lies strictly after it |
| BookingService.NoCycles | internal/booking/booking_service.go:380-388 | a chain of allowed moves that returns to its start never left it: the only cycles are self-loops |
| BookingService.UpdateReservationStatus | internal/booking/booking_service.go:258-292 | refuses a value outside the seven statuses before any lookup, then a missing id; succeeds iff the move is allowed; on success only status and update time change; on failure the table is unchanged |
| BookingService.PaymentStatusesAreStuck | internal/booking/booking_service.go:258-280 | a reservation in CREATED, PAYMENT_REQUIRED or CONFIRMED can never have its status updated, whatever the target |
| BookingService.BindingAgreesWithService | internal/booking/booking_service.go:259-266 | the statuses the request binding admits are exactly those the service does not reject as an invalid value |
| BookingService.CancelReservation | internal/booking/booking_service.go:294-297 | succeeds iff the row exists in pending, confirmed, checked_in or cancelled; the row ends cancelled, only its status and update time change, a refusal leaves the table as it was, and the table stays well formed |
| BookingService.ConfirmReservation | internal/booking/booking_service.go:299-302 | succeeds iff the row exists in pending or confirmed; the row ends confirmed, only its status and update time change, a refusal leaves the table as it was, and the table stays well formed |
| BookingService.CheckInReservation | internal/booking/booking_service.go:304-307 | succeeds iff the row exists in confirmed or checked_in; the row ends checked_in, only its status and update time change, a refusal leaves the table as it was, and the table stays well formed |
| BookingService.CheckOutReservation | internal/booking/booking_service.go:309-312 | succeeds iff the row exists in checked_in or checked_out; the row ends checked_out, only its status and update time change, a refusal leaves the table as it was, and the table stays well formed |
| BookingService.GetReservationByID | internal/booking/booking_service.go:35-47 | returns the stored row, or "reservation not found" exactly when the id is absent |
| BookingService.NewReservation | internal/booking/booking_service.go:65-92 | the row created before payment: the drawn random id, the request's ids, dates, price and guest count, status CREATED, no payment URL, nil maps made empty, created and updated time both the call's time |
| BookingService.CreateReservation | internal/booking/booking_service.go:50-117 | a conflict or a taken id leaves the table unchanged with an error; otherwise a row carrying the request, with created and updated time both the call's time, is added and nothing else changes; a payment failure is an error with the CREATED row kept; a payment URL makes the row PAYMENT_REQUIRED with that URL |
| BookingService.UpdateReservation | internal/booking/booking_service.go:138-198 | refuses a missing id, a completed or cancelled row (not a rejected one) and a clash with any other row; on success it rewrites only that row with the request's fields and keeps id, status, creation time and payment URL |
| BookingService.DeleteReservation | internal/booking/booking_service.go:232-255 | a missing id or a completed row is an error with the table unchanged; otherwise exactly that id is gone and every other row is untouched |
| BookingService.ConfirmPaymentAsWritten | internal/booking/booking_service.go:119-135 | on an absent id the source dereferences a nil reservation; on a present id it sets CONFIRMED and the table stays well formed |
| BookingService.ConfirmPayment | internal/booking/booking_service.go:119-135 | an absent id is "reservation not found" with the table unchanged; a present one becomes CONFIRMED whatever its status, and nothing else changes |
| BookingService.ConfirmPaymentAgrees | internal/booking/booking_service.go:119-135 | where the source does not panic, it behaves exactly as the corrected ConfirmPayment |
| BookingService.ConfirmPaymentIdempotent | internal/booking/booking_service.go:119-135 | confirming twice succeeds both times; the second call changes only the update time |
| BookingInvariants.NotBlockingMeansNotDoubleBooked | internal/booking/booking_repository.go:210-216 | a row the conflict query lets through is not double-booked with the requested stay, in either order, whatever order either stay's dates are in |
| BookingInvariants.CreateKeepsNoDoubleBooking | internal/booking/booking_service.go:56-116 | creating a reservation keeps the table free of overlapping active stays on one property, whatever the payment outcome and even with reversed or empty dates; a proper request also keeps every stored stay proper |
| BookingInvariants.UpdateKeepsNoDoubleBooking | internal/booking/booking_service.go:153-192 | editing a row keeps the table free of double bookings, whatever its new dates; a proper edit also keeps every stored stay proper |
| BookingInvariants.UpdateStatusKeepsNoDoubleBooking | internal/booking/booking_service.go:277-286 | a status update cannot revive a cancelled or rejected row, so it cannot create a double booking; it also keeps proper stays proper |
| BookingInvariants.DeleteKeepsNoDoubleBooking | internal/booking/booking_service.go:243-249 | deleting a row cannot create a double booking, and keeps proper stays proper |
| BookingInvariants.LatePaymentDoubleBooks | internal/booking/booking_service.go:119-128 | a payment event for a cancelled reservation whose dates were booked again revives it and leaves the property double-booked |
| KafkaConsumer.ConfirmCalls | internal/kafka/consumer.go:48-71 | the dispatch rule: the reservation ids a run confirms, one per qualifying message in arrival order, up to the first read error |
| KafkaConsumer.ConfirmTarget | internal/kafka/consumer.go:56-66 | a message leads to a confirmation iff it decodes, its type is PaymentAction and its Stripe status is succeeded; the id passed is the payload's reservation id |
| KafkaConsumer.ConfirmCallsAppend | internal/kafka/consumer.go:48-71 | messages are handled one at a time in arrival order: before a read error, the calls of a concatenation are the calls of each part in turn |
| KafkaConsumer.ReadErrorEndsRun | internal/kafka/consumer.go:49-53 | the first read error ends the loop: nothing after it is confirmed |
| KafkaConsumer.DecodeFailureSkipped | internal/kafka/consumer.go:57-60 | a message that fails to decode is skipped and the loop goes on |
| KafkaConsumer.ConfirmCallsSound | internal/kafka/consumer.go:48-71 | every confirmation is for the reservation named by a successful payment action that arrived before any read error |
| KafkaConsumer.ConfirmCallsComplete | internal/kafka/consumer.go:48-71 | every successful payment action that arrives before any read error leads to a confirmation of its reservation |
| KafkaConsumer.ConfirmStampsAppend | internal/kafka/consumer.go:48-71 | each confirmation reads the clock of its own delivery: before a read error, the readings of a concatenation are those of each part in turn, one per call |
| KafkaConsumer.ApplyConfirmsEffect | internal/kafka/consumer.go:66 | after a series of confirmations every confirmed stored id is CONFIRMED, every other row is unchanged, and the key set is unchanged |
| KafkaConsumer.ApplyConfirmsSnoc | internal/kafka/consumer.go:48-71 | confirming one more id at its own instant applies ConfirmPayment to the table the earlier confirmations produced |
| KafkaConsumer.StopAtReadError | internal/kafka/consumer.go:49-53 | at a read error the run's calls and clock readings are those of the deliveries before it |
| KafkaConsumer.StepMessage | internal/kafka/consumer.go:56-70 | a message adds its own confirmation, if any, to the run so far, read at that delivery's clock; any other message leaves calls and readings as they were |
| KafkaConsumer.Consume | internal/kafka/consumer.go:48-71 | the loop makes exactly the calls of the qualifying messages before the first read error, in order, and ends with the table those confirmations produce, each at its own delivery's clock reading; confirmed stored rows end CONFIRMED, all other rows are untouched and no row appears or disappears; a failed confirmation does not stop it |
| KafkaConsumer.AsWrittenStep | internal/kafka/consumer.go:63-70 | for a stored reservation the source's loop confirms it exactly as the corrected confirmation does, then carries on |
| KafkaConsumer.ConsumeAsWritten | internal/kafka/consumer.go:48-71 | the source's loop: messages in order, a read error ends the run, undecodable or non-qualifying messages are skipped, each qualifying one confirms through the as-written confirmation at its delivery's clock, and a nil dereference ends the run as a crash; the table stays well formed |
| KafkaConsumer.ConsumeAsWrittenIsPrefix | internal/kafka/consumer.go:48-71 | the source's loop makes a prefix of the corrected loop's calls |
| KafkaConsumer.ConsumeAsWrittenCrashCause | internal/kafka/consumer.go:63-70 | the source's loop stops early only by panicking, and only in a call for a reservation that is not stored |
| KafkaConsumer.ConsumeAsWrittenAgrees | internal/kafka/consumer.go:48-71 | a run of the source's loop that does not panic makes exactly the corrected calls and leaves the same table |
| KafkaConsumer.MissingReservationHaltsConsumer | internal/kafka/consumer.go:63-66 | a payment event for an unknown reservation stops the source's consumer process before a later event for a stored one; the corrected run confirms the stored one |
| KafkaConsumer.RedeliveryRestamps | internal/booking/booking_service.go:119-128 | a redelivered payment event confirms the reservation again, and its update time is the clock reading of the later delivery |

## Findings

| source | as written | input that shows it | evidently intended | confidence | as-written member | corrected member |
|---|---|---|---|---|---|---|
| internal/booking/booking_service.go:119-125 | `GetReservationByID` returns `nil, nil` for a missing row, and `ConfirmPayment` then assigns `existing.Status` through the nil pointer. The consumer goroutine panics and the process stops, so later payment events are not handled by that process (a restarted consumer in the same group resumes after the failing event). | a `PaymentAction` event with `stripeStatus` `succeeded` and a `reservationId` that is not stored, followed by one for a stored reservation | report "reservation not found", leave the table unchanged, and let the consumer log it and go on | high; not executed | `BookingService.ConfirmPaymentAsWritten`, `KafkaConsumer.ConsumeAsWrittenCrashCause`, `KafkaConsumer.MissingReservationHaltsConsumer` | `BookingService.ConfirmPayment`, `KafkaConsumer.Consume` |

Other behaviour the proofs bring out, modelled as written:

- `ConfirmPayment` never consults the state machine. It revives a cancelled
  reservation, and the property can end up double-booked
  (`LatePaymentDoubleBooks`). This service alone never gives a row it created a
  lower-case status: rows start as `CREATED`, no status update leaves the
  upper-case statuses, an edit keeps the status, and `ConfirmPayment` writes
  `CONFIRMED`. So the cancelled reservation in that example exists only if some
  other writer of the table stored it, for example an older row or a manual
  update.
- The payment flow writes upper-case statuses that the state machine does not
  know. A reservation that went through payment can never change status through
  `UpdateReservationStatus` (`PaymentStatusesAreStuck`).
- `UpdateReservation` refuses completed and cancelled rows but accepts rejected
  ones.
- Binding never checks that check-out comes after check-in. It also refuses a
  price of exactly zero.
- Binding accepts a zero-length or reversed request. Two proper back-to-back
  stays never clash (`BackToBackNeverClash`), but a zero-length request at either
  end of a proper stored stay is refused, and so is a reversed request that starts
  where the stay ends and ends after it begins (`EmptyOrReversedBoundaryRequestClashes`).

## Left out

- HTTP layer: the controller, the routes, gin request parsing and the mapping
  of errors to HTTP status codes. Binding rules appear only as the predicates
  `ValidRequest` and `ValidStatusUpdate`.
- `initiatePayment`: an HTTP POST to the payment service. Only its outcome is
  modelled, as the `initiatePayment` function parameter. Its input is the
  `PaymentRequest` the service builds.
- `validateReservationRequest`: the function is commented out, so its date and
  minimum-stay checks are not behaviour.
- Database and transport failures: connection errors, scan errors and Kafka
  read-error causes. A read error is one `ReadError` delivery. The only
  repository failures modelled are a duplicate key on insert and a missing row
  on update or delete.
- `time.Now()` and `rand.IntN`: one `now` instant per service operation
  replaces that operation's clock reads. The consumer takes one reading per
  delivery, in `clock[i]`, which is the reading its `ConfirmPayment` call
  makes. The random id is the parameter `freshId` in [0, 1000000).
- Concurrency: the check-then-insert race between the conflict query and the
  insert, and the goroutine and fx lifecycle of the consumer. The model is
  sequential.
- JSON decoding of events: the decoded value is an abstract
  `Option<MessageEnvelope>`.
- The Kafka reader configuration, `main.go` and the fx wiring.
- The listings `GetReservations`, `GetReservationsByCustomer`,
  `GetReservationsByProperty`, `GetReservationsByOrganization` and
  `GetReservationsByStatus`: plain filters with an ordering, the same shape as
  the two listings that are modelled.
- `GetReservations` and the other pass-through service reads: they forward the
  repository's result unchanged.
- The customer and communication gRPC clients.
- Floating-point behaviour of prices and amounts.
- The log lines of the consumer: a failed confirmation is printed and
  otherwise ignored, so `Consume` does not return what was printed.
- Ordering of rows with equal check-in in the listings: SQL leaves it
  unspecified, and so does `CollectByCheckIn`.
