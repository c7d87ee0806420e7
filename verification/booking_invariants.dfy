/** The no-double-booking guarantee: which service operations keep a table free of
    overlapping active stays on one property, and which one does not. */
module BookingInvariants {
  import opened BookingModel
  import opened BookingRepository
  import opened BookingService

  /** Every stored stay ends after it starts. */
  predicate ProperStays(store: Store)
  {
    forall id | id in store :: store[id].checkIn < store[id].checkOut
  }

  /** Two active reservations of one property whose stays overlap. */
  predicate DoubleBooked(a: Reservation, b: Reservation)
  {
    && a.propertyId == b.propertyId
    && Active(a) && Active(b)
    && Overlap(a.checkIn, a.checkOut, b.checkIn, b.checkOut)
  }

  predicate NoDoubleBooking(store: Store)
  {
    forall a, b | a in store && b in store && a != b :: !DoubleBooked(store[a], store[b])
  }

  /** A row the conflict query lets through cannot be double-booked with `n`, a
      stay carrying the requested property and dates, whatever order either
      stay's dates are in. */
  lemma NotBlockingMeansNotDoubleBooked(r: Reservation, n: Reservation)
    requires !Blocks(r, n.propertyId, n.checkIn, n.checkOut)
    ensures !DoubleBooked(r, n) && !DoubleBooked(n, r)
  {
    OverlapImpliesClash(r, n.checkIn, n.checkOut);
  }

  /** Creating a reservation keeps the table free of double bookings, whether or
      not the payment call succeeds and whatever order the requested dates are
      in; a proper request also keeps every stored stay proper. */
  lemma CreateKeepsNoDoubleBooking(
    store: Store, req: ReservationRequest, freshId: RandomId, now: Instant,
    initiatePayment: PaymentRequest -> GatewayResult)
    requires NoDoubleBooking(store)
    ensures NoDoubleBooking(BookingService.CreateReservation(store, req, freshId, now, initiatePayment).store)
    ensures ProperStays(store) && req.checkIn < req.checkOut ==>
      ProperStays(BookingService.CreateReservation(store, req, freshId, now, initiatePayment).store)
  {
    var o := BookingService.CreateReservation(store, req, freshId, now, initiatePayment);
    if !CheckPropertyAvailability(store, req.propertyId, req.checkIn, req.checkOut) && freshId !in store {
      var n := o.store[freshId];
      forall a | a in store
        ensures !DoubleBooked(store[a], n) && !DoubleBooked(n, store[a])
      {
        assert !Blocks(store[a], req.propertyId, req.checkIn, req.checkOut);
        NotBlockingMeansNotDoubleBooked(store[a], n);
      }
      forall a, b | a in o.store && b in o.store && a != b
        ensures !DoubleBooked(o.store[a], o.store[b])
      {
        if a != freshId && b != freshId {
          assert o.store[a] == store[a] && o.store[b] == store[b];
        }
      }
    }
  }

  /** Editing a reservation keeps the table free of double bookings: the conflict
      query skips only the row being edited. A proper edit keeps stays proper. */
  lemma UpdateKeepsNoDoubleBooking(store: Store, id: int, req: ReservationRequest, now: Instant)
    requires WellFormed(store) && NoDoubleBooking(store)
    ensures NoDoubleBooking(BookingService.UpdateReservation(store, id, req, now).store)
    ensures ProperStays(store) && req.checkIn < req.checkOut ==>
      ProperStays(BookingService.UpdateReservation(store, id, req, now).store)
  {
    var o := BookingService.UpdateReservation(store, id, req, now);
    if o.result.Ok? {
      var n := o.store[id];
      var rest := store - {id};
      forall a | a in store && a != id
        ensures !DoubleBooked(store[a], n) && !DoubleBooked(n, store[a])
      {
        assert a in rest && rest[a] == store[a];
        assert !Blocks(rest[a], req.propertyId, req.checkIn, req.checkOut);
        NotBlockingMeansNotDoubleBooked(store[a], n);
      }
      forall a, b | a in o.store && b in o.store && a != b
        ensures !DoubleBooked(o.store[a], o.store[b])
      {
        if a != id && b != id {
          assert o.store[a] == store[a] && o.store[b] == store[b];
        }
      }
    }
  }

  /** A status update never revives a cancelled or rejected row, so it cannot
      create a double booking. */
  lemma UpdateStatusKeepsNoDoubleBooking(store: Store, id: int, status: string, now: Instant)
    requires WellFormed(store) && NoDoubleBooking(store)
    ensures NoDoubleBooking(UpdateReservationStatus(store, id, status, now).store)
    ensures ProperStays(store) ==> ProperStays(UpdateReservationStatus(store, id, status, now).store)
  {
    var o := UpdateReservationStatus(store, id, status, now);
    if o.result.Ok? {
      var before := store[id];
      var n := o.store[id];
      if !Active(before) {
        TerminalStatuses(before.status, status);
        assert !Active(n);
      }
      forall a, b | a in o.store && b in o.store && a != b
        ensures !DoubleBooked(o.store[a], o.store[b])
      {
        if a == id {
          assert !DoubleBooked(store[a], store[b]);
        } else if b == id {
          assert !DoubleBooked(store[a], store[b]);
        } else {
          assert o.store[a] == store[a] && o.store[b] == store[b];
        }
      }
    }
  }

  /** Removing a row cannot create a double booking. */
  lemma DeleteKeepsNoDoubleBooking(store: Store, id: int)
    requires NoDoubleBooking(store)
    ensures NoDoubleBooking(BookingService.DeleteReservation(store, id).store)
    ensures ProperStays(store) ==> ProperStays(BookingService.DeleteReservation(store, id).store)
  {
    var o := BookingService.DeleteReservation(store, id);
    forall a, b | a in o.store && b in o.store && a != b
      ensures !DoubleBooked(o.store[a], o.store[b])
    {
      assert o.store[a] == store[a] && o.store[b] == store[b];
    }
  }

  /** `ConfirmPayment` does not consult the state machine: a late payment event for
      a cancelled reservation whose dates were booked again revives it, and the
      property ends up double-booked. */
  lemma LatePaymentDoubleBooks()
    ensures exists store: Store, id: int, now: Instant ::
      && WellFormed(store) && NoDoubleBooking(store) && ProperStays(store)
      && !NoDoubleBooking(ConfirmPayment(store, id, now).store)
  {
    var cancelled := Reservation(1, 1, 7, 1, 10, 20, Cancelled, 100.0, "", Attrs(map[]), 2,
                                 Attrs(map[]), Attrs(map[]), 0, 0);
    var rebooked := cancelled.(id := 2, status := PaymentRequired);
    var store := map[1 := cancelled, 2 := rebooked];
    assert NoDoubleBooking(store) by {
      forall a, b | a in store && b in store && a != b
        ensures !DoubleBooked(store[a], store[b])
      {
        assert a == 1 || b == 1;
      }
    }
    var after := ConfirmPayment(store, 1, 30).store;
    assert after[1].status == PaymentConfirmed && after[2] == rebooked;
    assert DoubleBooked(after[1], after[2]);
  }
}
