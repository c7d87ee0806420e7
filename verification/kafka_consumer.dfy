/** The payment-event consumer: for each message read, decode it, keep only
    successful payment actions, and confirm the named reservation. */
module KafkaConsumer {
  import opened Wrappers
  import opened BookingModel
  import opened BookingRepository
  import opened BookingService

  /** The `payload` of a payment event. The 64-bit ids are plain integers here. */
  datatype PaymentAction = PaymentAction(
    paymentId: int,
    organizationId: int,
    reservationId: int,
    amount: real,
    stripePaymentIntentId: string,
    stripeStatus: string,
    paidAtUtc: string)

  /** The JSON envelope every event carries. */
  datatype MessageEnvelope = MessageEnvelope(
    messageId: string,
    messageType: string,
    occurredAt: string,
    payload: PaymentAction,
    schemaVersion: int)

  /** One `ReadMessage` call: either a message, whose body did or did not decode
      into an envelope, or a read error. */
  datatype Delivery = Message(decoded: Option<MessageEnvelope>) | ReadError

  /** Which reservation a delivered message confirms, if any. */
  function ConfirmTarget(decoded: Option<MessageEnvelope>): (target: Option<int>)
    ensures target.Some? <==>
      decoded.Some? && decoded.value.messageType == "PaymentAction"
      && decoded.value.payload.stripeStatus == "succeeded"
    ensures target.Some? ==> target.value == decoded.value.payload.reservationId
  {
    match decoded
    case None => None
    case Some(envelope) =>
      if envelope.messageType == "PaymentAction" && envelope.payload.stripeStatus == "succeeded"
      then Some(envelope.payload.reservationId)
      else None
  }

  predicate NoReadError(ds: seq<Delivery>)
  {
    forall i | 0 <= i < |ds| :: ds[i].Message?
  }

  /** The `ConfirmPayment` calls a run over `ds` makes, in order. */
  function ConfirmCalls(ds: seq<Delivery>): (calls: seq<int>)
  {
    if |ds| == 0 then []
    else
      match ds[0]
      case ReadError => []
      case Message(decoded) =>
        (match ConfirmTarget(decoded) case Some(id) => [id] case None => []) + ConfirmCalls(ds[1..])
  }

  /** Deliveries before a read error contribute their calls one after another. */
  lemma {:induction false} ConfirmCallsAppend(a: seq<Delivery>, b: seq<Delivery>)
    requires NoReadError(a)
    ensures ConfirmCalls(a + b) == ConfirmCalls(a) + ConfirmCalls(b)
  {
    if |a| > 0 {
      assert (a + b)[1..] == a[1..] + b;
      ConfirmCallsAppend(a[1..], b);
    } else {
      assert a + b == b;
    }
  }

  /** The first read error ends the run: nothing after it is processed. */
  lemma ReadErrorEndsRun(before: seq<Delivery>, after: seq<Delivery>)
    requires NoReadError(before)
    ensures ConfirmCalls(before + [ReadError] + after) == ConfirmCalls(before)
  {
    assert before + [ReadError] + after == before + ([ReadError] + after);
    ConfirmCallsAppend(before, [ReadError] + after);
  }

  /** A message that does not decode is skipped and the run goes on. */
  lemma DecodeFailureSkipped(ds: seq<Delivery>)
    ensures ConfirmCalls([Message(None)] + ds) == ConfirmCalls(ds)
  {
    assert ([Message(None)] + ds)[1..] == ds;
  }

  /** Every confirmation is for the reservation named by a successful payment
      action that arrived before any read error, and every such action leads to
      one. */
  lemma {:induction false} ConfirmCallsSound(ds: seq<Delivery>, k: nat)
    requires k < |ConfirmCalls(ds)|
    ensures exists i | 0 <= i < |ds| ::
      && NoReadError(ds[..i + 1])
      && ds[i].decoded.Some?
      && ds[i].decoded.value.messageType == "PaymentAction"
      && ds[i].decoded.value.payload.stripeStatus == "succeeded"
      && ds[i].decoded.value.payload.reservationId == ConfirmCalls(ds)[k]
  {
    var head := match ConfirmTarget(ds[0].decoded) case Some(id) => [id] case None => [];
    assert ConfirmCalls(ds) == head + ConfirmCalls(ds[1..]);
    if k < |head| {
      assert NoReadError(ds[..1]);
    } else {
      ConfirmCallsSound(ds[1..], k - |head|);
      var i :| 0 <= i < |ds[1..]| && NoReadError(ds[1..][..i + 1])
        && ds[1..][i].decoded.Some?
        && ds[1..][i].decoded.value.messageType == "PaymentAction"
        && ds[1..][i].decoded.value.payload.stripeStatus == "succeeded"
        && ds[1..][i].decoded.value.payload.reservationId == ConfirmCalls(ds[1..])[k - |head|];
      assert ds[..i + 2] == [ds[0]] + ds[1..][..i + 1];
      assert NoReadError(ds[..(i + 1) + 1]);
    }
  }

  lemma {:induction false} ConfirmCallsComplete(ds: seq<Delivery>, i: nat)
    requires i < |ds| && NoReadError(ds[..i + 1])
    requires ds[i].decoded.Some?
    requires ds[i].decoded.value.messageType == "PaymentAction"
    requires ds[i].decoded.value.payload.stripeStatus == "succeeded"
    ensures ds[i].decoded.value.payload.reservationId in ConfirmCalls(ds)
  {
    assert ds[..i + 1][0] == ds[0];
    var head := match ConfirmTarget(ds[0].decoded) case Some(id) => [id] case None => [];
    assert ConfirmCalls(ds) == head + ConfirmCalls(ds[1..]);
    if i > 0 {
      assert ds[1..][..i] == ds[..i + 1][1..];
      ConfirmCallsComplete(ds[1..], i - 1);
    }
  }

  /** The clock readings of the deliveries that make a call, in the order of the
      calls. `clock[i]` is what `time.Now()` reads inside the `ConfirmPayment`
      call delivery `i` makes, so every confirmation carries its own update time. */
  function ConfirmStamps(ds: seq<Delivery>, clock: seq<Instant>): (stamps: seq<Instant>)
    requires |clock| == |ds|
    ensures |stamps| == |ConfirmCalls(ds)|
  {
    if |ds| == 0 then []
    else
      match ds[0]
      case ReadError => []
      case Message(decoded) =>
        (match ConfirmTarget(decoded) case Some(_) => [clock[0]] case None => [])
        + ConfirmStamps(ds[1..], clock[1..])
  }

  /** Stamps of deliveries before a read error come one part after another. */
  lemma {:induction false} ConfirmStampsAppend(a: seq<Delivery>, b: seq<Delivery>, ca: seq<Instant>, cb: seq<Instant>)
    requires NoReadError(a) && |ca| == |a| && |cb| == |b|
    ensures ConfirmStamps(a + b, ca + cb) == ConfirmStamps(a, ca) + ConfirmStamps(b, cb)
    decreases |a|
  {
    if |a| > 0 {
      assert (a + b)[1..] == a[1..] + b;
      assert (ca + cb)[1..] == ca[1..] + cb;
      assert (a + b)[0] == a[0] && (ca + cb)[0] == ca[0];
      ConfirmStampsAppend(a[1..], b, ca[1..], cb);
    } else {
      assert a + b == b && ca + cb == cb;
    }
  }

  /** The table after confirming `ids[k]` at `stamps[k]`, one after another. */
  function ApplyConfirms(store: Store, ids: seq<int>, stamps: seq<Instant>): (s: Store)
    requires WellFormed(store) && |stamps| == |ids|
    ensures WellFormed(s)
    decreases |ids|
  {
    if |ids| == 0 then store
    else ApplyConfirms(ConfirmPayment(store, ids[0], stamps[0]).store, ids[1..], stamps[1..])
  }

  /** What a series of confirmations does to the table: every stored id among
      them ends CONFIRMED, every other row is untouched, and no row appears or
      disappears. */
  lemma {:induction false} ApplyConfirmsEffect(store: Store, ids: seq<int>, stamps: seq<Instant>)
    requires WellFormed(store) && |stamps| == |ids|
    ensures var s := ApplyConfirms(store, ids, stamps);
      && s.Keys == store.Keys
      && (forall id | id in ids && id in store :: s[id].status == PaymentConfirmed)
      && (forall k | k in store && k !in ids :: s[k] == store[k])
    decreases |ids|
  {
    if |ids| > 0 {
      ApplyConfirmsEffect(ConfirmPayment(store, ids[0], stamps[0]).store, ids[1..], stamps[1..]);
      assert forall id | id in ids :: id == ids[0] || id in ids[1..];
    }
  }

  lemma {:induction false} ApplyConfirmsSnoc(store: Store, ids: seq<int>, stamps: seq<Instant>, id: int, t: Instant)
    requires WellFormed(store) && |stamps| == |ids|
    ensures ApplyConfirms(store, ids + [id], stamps + [t]) == ConfirmPayment(ApplyConfirms(store, ids, stamps), id, t).store
    decreases |ids|
  {
    if |ids| > 0 {
      assert (ids + [id])[1..] == ids[1..] + [id];
      assert (stamps + [t])[1..] == stamps[1..] + [t];
      ApplyConfirmsSnoc(ConfirmPayment(store, ids[0], stamps[0]).store, ids[1..], stamps[1..], id, t);
    } else {
      assert ids + [id] == [id] && stamps + [t] == [t];
    }
  }

  /** A read error at position `i` leaves the calls and stamps of the run so far. */
  lemma StopAtReadError(ds: seq<Delivery>, clock: seq<Instant>, i: nat)
    requires |clock| == |ds|
    requires i < |ds| && NoReadError(ds[..i]) && ds[i].ReadError?
    ensures ConfirmCalls(ds) == ConfirmCalls(ds[..i])
    ensures ConfirmStamps(ds, clock) == ConfirmStamps(ds[..i], clock[..i])
  {
    assert ds == ds[..i] + [ReadError] + ds[i + 1..];
    ReadErrorEndsRun(ds[..i], ds[i + 1..]);
    assert ds == ds[..i] + ds[i..] && clock == clock[..i] + clock[i..];
    ConfirmStampsAppend(ds[..i], ds[i..], clock[..i], clock[i..]);
  }

  /** A message at position `i` adds its own call, if any, to the run so far,
      stamped with that delivery's clock reading `clock[i]`. */
  lemma StepMessage(ds: seq<Delivery>, clock: seq<Instant>, i: nat)
    requires |clock| == |ds|
    requires i < |ds| && NoReadError(ds[..i]) && ds[i].Message?
    ensures NoReadError(ds[..i + 1])
    ensures match ConfirmTarget(ds[i].decoded)
      case None =>
        && ConfirmCalls(ds[..i + 1]) == ConfirmCalls(ds[..i])
        && ConfirmStamps(ds[..i + 1], clock[..i + 1]) == ConfirmStamps(ds[..i], clock[..i])
      case Some(id) =>
        && ConfirmCalls(ds[..i + 1]) == ConfirmCalls(ds[..i]) + [id]
        && ConfirmStamps(ds[..i + 1], clock[..i + 1]) == ConfirmStamps(ds[..i], clock[..i]) + [clock[i]]
  {
    assert ds[..i + 1] == ds[..i] + [ds[i]];
    assert clock[..i + 1] == clock[..i] + [clock[i]];
    ConfirmCallsAppend(ds[..i], [ds[i]]);
    ConfirmStampsAppend(ds[..i], [ds[i]], clock[..i], [clock[i]]);
  }

  /** The consumer loop of `RegisterKafkaHooks` over a finite run of deliveries:
      it returns the confirmation calls made and the final table. A failed
      confirmation is only logged, so it affects neither. */
  method Consume(store: Store, ds: seq<Delivery>, clock: seq<Instant>) returns (calls: seq<int>, final: Store)
    requires WellFormed(store) && |clock| == |ds|
    ensures calls == ConfirmCalls(ds)
    ensures final == ApplyConfirms(store, calls, ConfirmStamps(ds, clock))
    ensures final.Keys == store.Keys
    ensures forall id | id in calls && id in store :: final[id].status == PaymentConfirmed
    ensures forall k | k in store && k !in calls :: final[k] == store[k]
  {
    calls, final := [], store;
    var i := 0;
    while i < |ds|
      invariant 0 <= i <= |ds|
      invariant NoReadError(ds[..i])
      invariant calls == ConfirmCalls(ds[..i])
      invariant final == ApplyConfirms(store, calls, ConfirmStamps(ds[..i], clock[..i]))
    {
      if ds[i].ReadError? {
        StopAtReadError(ds, clock, i);
        ApplyConfirmsEffect(store, calls, ConfirmStamps(ds, clock));
        return;
      }
      StepMessage(ds, clock, i);
      var target := ConfirmTarget(ds[i].decoded);
      if target.Some? {
        var id := target.value;
        // An error result is only logged.
        var o := ConfirmPayment(final, id, clock[i]);
        ApplyConfirmsSnoc(store, calls, ConfirmStamps(ds[..i], clock[..i]), id, clock[i]);
        final := o.store;
        calls := calls + [id];
      }
      i := i + 1;
    }
    assert ds[..i] == ds && clock[..i] == clock;
    ApplyConfirmsEffect(store, calls, ConfirmStamps(ds, clock));
  }

  /** The consumer as the source is written: a confirmation that dereferences a
      nil reservation panics, and the panic ends the consumer. */
  datatype Run = Run(store: Store, calls: seq<int>, crashed: bool)

  function ConsumeAsWritten(store: Store, ds: seq<Delivery>, clock: seq<Instant>): (r: Run)
    requires WellFormed(store) && |clock| == |ds|
    ensures WellFormed(r.store)
    decreases |ds|
  {
    if |ds| == 0 then Run(store, [], false)
    else
      match ds[0]
      case ReadError => Run(store, [], false)
      case Message(decoded) =>
        match ConfirmTarget(decoded)
        case None => ConsumeAsWritten(store, ds[1..], clock[1..])
        case Some(id) =>
          match ConfirmPaymentAsWritten(store, id, clock[0])
          case NilDereference => Run(store, [id], true)
          case Returned(o) =>
            ConfirmPaymentAgrees(store, id, clock[0]);
            var rest := ConsumeAsWritten(o.store, ds[1..], clock[1..]);
            Run(rest.store, [id] + rest.calls, rest.crashed)
  }

  /** One confirmed delivery of the source's loop, for a stored reservation: it
      runs the corrected confirmation and carries on with the rest. */
  lemma AsWrittenStep(store: Store, ds: seq<Delivery>, clock: seq<Instant>, id: int)
    requires WellFormed(store) && |clock| == |ds| && |ds| > 0 && ds[0].Message?
    requires ConfirmTarget(ds[0].decoded) == Some(id) && id in store
    ensures var rest := ConsumeAsWritten(ConfirmPayment(store, id, clock[0]).store, ds[1..], clock[1..]);
      ConsumeAsWritten(store, ds, clock) == Run(rest.store, [id] + rest.calls, rest.crashed)
  {
    ConfirmPaymentAgrees(store, id, clock[0]);
  }

  /** The source's loop makes a prefix of the calls of the corrected loop. */
  lemma {:induction false} ConsumeAsWrittenIsPrefix(store: Store, ds: seq<Delivery>, clock: seq<Instant>)
    requires WellFormed(store) && |clock| == |ds|
    ensures ConsumeAsWritten(store, ds, clock).calls <= ConfirmCalls(ds)
    decreases |ds|
  {
    var r := ConsumeAsWritten(store, ds, clock);
    if |ds| == 0 || ds[0].ReadError? {
      assert r.calls == [];
    } else {
      match ConfirmTarget(ds[0].decoded)
      case None =>
        assert r == ConsumeAsWritten(store, ds[1..], clock[1..]);
        assert ConfirmCalls(ds) == ConfirmCalls(ds[1..]);
        ConsumeAsWrittenIsPrefix(store, ds[1..], clock[1..]);
      case Some(id) =>
        assert ConfirmCalls(ds) == [id] + ConfirmCalls(ds[1..]);
        if id in store {
          AsWrittenStep(store, ds, clock, id);
          var next := ConfirmPayment(store, id, clock[0]).store;
          ConsumeAsWrittenIsPrefix(next, ds[1..], clock[1..]);
          var rest := ConsumeAsWritten(next, ds[1..], clock[1..]);
          assert [id] + rest.calls <= [id] + ConfirmCalls(ds[1..]);
        } else {
          assert ConfirmPaymentAsWritten(store, id, clock[0]).NilDereference?;
          assert r.calls == [id];
        }
    }
  }

  /** The source's loop stops short only by panicking, and the call it panics in
      is for a reservation that is not stored. */
  lemma {:induction false} ConsumeAsWrittenCrashCause(store: Store, ds: seq<Delivery>, clock: seq<Instant>)
    requires WellFormed(store) && |clock| == |ds|
    ensures var r := ConsumeAsWritten(store, ds, clock);
      r.crashed ==> |r.calls| > 0 && r.calls[|r.calls| - 1] !in store
    decreases |ds|
  {
    var r := ConsumeAsWritten(store, ds, clock);
    if |ds| == 0 || ds[0].ReadError? {
      assert !r.crashed;
    } else {
      match ConfirmTarget(ds[0].decoded)
      case None =>
        assert r == ConsumeAsWritten(store, ds[1..], clock[1..]);
        ConsumeAsWrittenCrashCause(store, ds[1..], clock[1..]);
      case Some(id) =>
        if id in store {
          AsWrittenStep(store, ds, clock, id);
          var next := ConfirmPayment(store, id, clock[0]).store;
          ConsumeAsWrittenCrashCause(next, ds[1..], clock[1..]);
          var rest := ConsumeAsWritten(next, ds[1..], clock[1..]);
          assert next.Keys == store.Keys;
          if rest.crashed {
            assert r.calls[|r.calls| - 1] == rest.calls[|rest.calls| - 1];
          }
        } else {
          assert ConfirmPaymentAsWritten(store, id, clock[0]).NilDereference?;
          assert r == Run(store, [id], true);
        }
    }
  }

  /** A run of the source's loop that does not panic makes exactly the corrected
      loop's calls and leaves the same table. */
  lemma {:induction false} ConsumeAsWrittenAgrees(store: Store, ds: seq<Delivery>, clock: seq<Instant>)
    requires WellFormed(store) && |clock| == |ds|
    ensures var r := ConsumeAsWritten(store, ds, clock);
      !r.crashed ==> r.calls == ConfirmCalls(ds) && r.store == ApplyConfirms(store, r.calls, ConfirmStamps(ds, clock))
    decreases |ds|
  {
    if |ds| > 0 && ds[0].Message? {
      match ConfirmTarget(ds[0].decoded)
      case None =>
        assert ConsumeAsWritten(store, ds, clock) == ConsumeAsWritten(store, ds[1..], clock[1..]);
        assert ConfirmCalls(ds) == ConfirmCalls(ds[1..]);
        assert ConfirmStamps(ds, clock) == ConfirmStamps(ds[1..], clock[1..]);
        ConsumeAsWrittenAgrees(store, ds[1..], clock[1..]);
      case Some(id) =>
        if id in store {
          assert ConfirmCalls(ds) == [id] + ConfirmCalls(ds[1..]);
          assert ConfirmStamps(ds, clock) == [clock[0]] + ConfirmStamps(ds[1..], clock[1..]);
          AsWrittenStep(store, ds, clock, id);
          var next := ConfirmPayment(store, id, clock[0]).store;
          ConsumeAsWrittenAgrees(next, ds[1..], clock[1..]);
          var rest := ConsumeAsWritten(next, ds[1..], clock[1..]);
          assert ([id] + rest.calls)[1..] == rest.calls;
        }
    }
  }

  function SucceededPayment(reservationId: int): (m: MessageEnvelope)
  {
    MessageEnvelope("m", "PaymentAction", "", PaymentAction(1, 1, reservationId, 10.0, "pi", "succeeded", ""), 1)
  }

  /** A successful payment event for a reservation that is not stored stops the
      source's consumer process: a later event for an existing reservation is
      not applied by that process. With the missing row reported as an error the run continues
      and confirms it. */
  lemma MissingReservationHaltsConsumer(row: Reservation, t1: Instant, t2: Instant)
    requires row.id == 5 && row.status == Pending
    ensures var store := map[5 := row];
      var ds := [Message(Some(SucceededPayment(7))), Message(Some(SucceededPayment(5)))];
      && ConsumeAsWritten(store, ds, [t1, t2]).crashed
      && ConsumeAsWritten(store, ds, [t1, t2]).calls == [7]
      && ConsumeAsWritten(store, ds, [t1, t2]).store[5].status == Pending
      && ConfirmCalls(ds) == [7, 5]
      && ConfirmStamps(ds, [t1, t2]) == [t1, t2]
      && ApplyConfirms(store, [7, 5], [t1, t2])[5].status == PaymentConfirmed
  {
    var store := map[5 := row];
    var ds := [Message(Some(SucceededPayment(7))), Message(Some(SucceededPayment(5)))];
    assert ds[1..] == [Message(Some(SucceededPayment(5)))];
    assert ds[1..][1..] == [];
    assert [t1, t2][1..] == [t2];
    assert ConfirmCalls(ds) == [7, 5];
  }

  /** A redelivered payment event confirms the reservation again, and the update
      time is the clock reading of the later delivery. */
  lemma RedeliveryRestamps(row: Reservation, t1: Instant, t2: Instant)
    requires row.id == 5
    ensures var ds := [Message(Some(SucceededPayment(5))), Message(Some(SucceededPayment(5)))];
      && ConfirmCalls(ds) == [5, 5]
      && ConfirmStamps(ds, [t1, t2]) == [t1, t2]
      && ApplyConfirms(map[5 := row], [5, 5], [t1, t2])[5] == row.(status := PaymentConfirmed, updatedAt := t2)
  {
    var ds := [Message(Some(SucceededPayment(5))), Message(Some(SucceededPayment(5)))];
    assert ds[1..] == [Message(Some(SucceededPayment(5)))];
    assert ds[1..][1..] == [];
    assert [t1, t2][1..] == [t2];
  }
}
