/** The reservation table and the queries the service issues against it, with the
    table as a map from primary key to row. */
module BookingRepository {
  import opened Wrappers
  import opened BookingModel

  /** The `reservation` table, keyed by its `id` column. */
  type Store = map<int, Reservation>

  /** Every row sits under its own primary key. */
  predicate WellFormed(store: Store)
  {
    forall id | id in store :: store[id].id == id
  }

  /** Some row of the table equals `r`. */
  predicate Stored(store: Store, r: Reservation)
  {
    exists id | id in store :: store[id] == r
  }

  datatype RepoError = DuplicateKey(id: int) | RowNotFound

  /** A successful write: the new table and the row as `RETURNING` reports it. */
  datatype Written = Written(store: Store, row: Reservation)

  /** `SELECT ... WHERE id = $1`: a missing row is `nil` without an error. */
  function GetReservationByID(store: Store, id: int): (r: Option<Reservation>)
    ensures r.Some? <==> id in store
    ensures r.Some? ==> r.value == store[id]
  {
    if id in store then Some(store[id]) else None
  }

  /** `INSERT ... RETURNING`: refused when the primary key is taken. */
  function CreateReservation(store: Store, r: Reservation): (out: Result<Written, RepoError>)
    ensures r.id in store <==> out.Err?
    ensures out.Err? ==> out.error == DuplicateKey(r.id)
    ensures out.Ok? ==> out.value.row == r && r.id in out.value.store && out.value.store[r.id] == r
    ensures out.Ok? ==> forall k :: k != r.id ==> (k in out.value.store <==> k in store)
    ensures out.Ok? ==> forall k | k in store :: out.value.store[k] == store[k]
    ensures WellFormed(store) && out.Ok? ==> WellFormed(out.value.store)
  {
    if r.id in store then Err(DuplicateKey(r.id))
    else Ok(Written(store[r.id := r], r))
  }

  /** `UPDATE ... WHERE id = $1 RETURNING`: every column but `id` and `created_at`
      is overwritten; no row means "reservation not found". */
  function UpdateReservation(store: Store, r: Reservation): (out: Result<Written, RepoError>)
    ensures r.id !in store <==> out.Err?
    ensures out.Err? ==> out.error == RowNotFound
    ensures out.Ok? ==> out.value.row == r.(createdAt := store[r.id].createdAt)
    ensures out.Ok? ==> r.id in out.value.store && out.value.store[r.id] == out.value.row
    ensures out.Ok? ==> out.value.store.Keys == store.Keys
    ensures out.Ok? ==> forall k | k in store && k != r.id :: out.value.store[k] == store[k]
    ensures WellFormed(store) && out.Ok? ==> WellFormed(out.value.store)
  {
    if r.id !in store then Err(RowNotFound)
    else
      var row := r.(createdAt := store[r.id].createdAt);
      Ok(Written(store[r.id := row], row))
  }

  /** `DELETE ... WHERE id = $1`: zero rows affected means "reservation not found". */
  function DeleteReservation(store: Store, id: int): (out: Result<Store, RepoError>)
    ensures id !in store <==> out.Err?
    ensures out.Err? ==> out.error == RowNotFound
    ensures out.Ok? ==> id !in out.value
    ensures out.Ok? ==> forall k :: k != id ==> (k in out.value <==> k in store)
    ensures out.Ok? ==> forall k | k in out.value :: out.value[k] == store[k]
    ensures WellFormed(store) && out.Ok? ==> WellFormed(out.value)
  {
    if id !in store then Err(RowNotFound) else Ok(store - {id})
  }

  // ---------------------------------------------------------------------------
  // Conflict detection

  /** Rows with these statuses never block a booking. */
  predicate Active(r: Reservation)
  {
    r.status != Cancelled && r.status != Rejected
  }

  /** The three range clauses of the availability query, for a candidate stay
      from `checkIn` to `checkOut` against a stored row. */
  predicate RangeClash(r: Reservation, checkIn: Instant, checkOut: Instant)
  {
    || (r.checkIn <= checkIn && r.checkOut > checkIn)
    || (r.checkIn < checkOut && r.checkOut >= checkOut)
    || (r.checkIn >= checkIn && r.checkOut <= checkOut)
  }

  /** A stored row that makes the candidate stay unavailable. */
  predicate Blocks(r: Reservation, propertyId: int, checkIn: Instant, checkOut: Instant)
  {
    r.propertyId == propertyId && Active(r) && RangeClash(r, checkIn, checkOut)
  }

  /** `CheckPropertyAvailability`. Despite its name, `true` means there IS a conflict. */
  predicate CheckPropertyAvailability(store: Store, propertyId: int, checkIn: Instant, checkOut: Instant)
  {
    exists id | id in store :: Blocks(store[id], propertyId, checkIn, checkOut)
  }

  /** `CheckPropertyAvailabilityExcluding`: the same query with `id != excludeId`. */
  predicate CheckPropertyAvailabilityExcluding(store: Store, excludeId: int, propertyId: int, checkIn: Instant, checkOut: Instant)
  {
    exists id | id in store && id != excludeId :: Blocks(store[id], propertyId, checkIn, checkOut)
  }

  /** Half-open overlap of two stays `[checkIn, checkOut)`. */
  predicate Overlap(aIn: Instant, aOut: Instant, bIn: Instant, bOut: Instant)
  {
    aIn < bOut && bIn < aOut
  }

  /** For non-empty stays the three clauses say exactly "the half-open ranges overlap". */
  lemma RangeClashIsOverlap(r: Reservation, checkIn: Instant, checkOut: Instant)
    requires r.checkIn < r.checkOut && checkIn < checkOut
    ensures RangeClash(r, checkIn, checkOut) <==> Overlap(r.checkIn, r.checkOut, checkIn, checkOut)
  {
    if Overlap(r.checkIn, r.checkOut, checkIn, checkOut) {
      if r.checkIn > checkIn && r.checkOut < checkOut {
        assert r.checkIn >= checkIn && r.checkOut <= checkOut;
      }
    }
  }

  /** One direction holds for every pair of stays, empty or reversed ones included:
      whatever overlaps is caught by the three clauses. */
  lemma OverlapImpliesClash(r: Reservation, checkIn: Instant, checkOut: Instant)
    ensures Overlap(r.checkIn, r.checkOut, checkIn, checkOut) ==> RangeClash(r, checkIn, checkOut)
  {
  }

  /** Without the non-empty requirement the clauses and the overlap disagree: two
      zero-length stays at the same instant clash. */
  lemma ZeroLengthStaysClash(r: Reservation)
    requires r.checkIn == 5 && r.checkOut == 5
    ensures RangeClash(r, 5, 5)
    ensures !Overlap(r.checkIn, r.checkOut, 5, 5)
  {
  }

  /** The conflict query, restated over the whole table as half-open overlap. Only the
      rows that could block, the active ones of that property, need proper stays. */
  lemma CheckPropertyAvailabilityIsOverlap(store: Store, propertyId: int, checkIn: Instant, checkOut: Instant)
    requires forall id | id in store && store[id].propertyId == propertyId && Active(store[id]) ::
      store[id].checkIn < store[id].checkOut
    requires checkIn < checkOut
    ensures CheckPropertyAvailability(store, propertyId, checkIn, checkOut) <==>
      exists id | id in store ::
        store[id].propertyId == propertyId && Active(store[id])
        && Overlap(store[id].checkIn, store[id].checkOut, checkIn, checkOut)
  {
    forall id | id in store && store[id].propertyId == propertyId && Active(store[id]) {
      RangeClashIsOverlap(store[id], checkIn, checkOut);
    }
  }

  /** Back-to-back stays do not conflict, in either order. */
  lemma BackToBackNeverClash(r: Reservation, checkIn: Instant, checkOut: Instant)
    requires r.checkIn < r.checkOut && checkIn < checkOut
    requires checkIn == r.checkOut || checkOut == r.checkIn
    ensures !RangeClash(r, checkIn, checkOut)
  {
  }

  /** Without the non-empty requirement the boundary is no longer safe: a zero-length
      request at either end of a stored stay clashes with it, and a reversed request
      that starts where the stay ends clashes exactly when it ends after the stay begins. */
  lemma EmptyOrReversedBoundaryRequestClashes(r: Reservation, checkOut: Instant)
    requires r.checkIn < r.checkOut
    ensures RangeClash(r, r.checkOut, r.checkOut) && RangeClash(r, r.checkIn, r.checkIn)
    ensures checkOut < r.checkOut ==> (RangeClash(r, r.checkOut, checkOut) <==> r.checkIn < checkOut)
  {
  }

  /** Excluding an id is the plain query on the table without that row. */
  lemma ExcludingIsRemoval(store: Store, excludeId: int, propertyId: int, checkIn: Instant, checkOut: Instant)
    ensures CheckPropertyAvailabilityExcluding(store, excludeId, propertyId, checkIn, checkOut)
        <==> CheckPropertyAvailability(store - {excludeId}, propertyId, checkIn, checkOut)
  {
    var rest := store - {excludeId};
    if CheckPropertyAvailabilityExcluding(store, excludeId, propertyId, checkIn, checkOut) {
      var id :| id in store && id != excludeId && Blocks(store[id], propertyId, checkIn, checkOut);
      assert id in rest && rest[id] == store[id];
    }
    if CheckPropertyAvailability(rest, propertyId, checkIn, checkOut) {
      var id :| id in rest && Blocks(rest[id], propertyId, checkIn, checkOut);
      assert id in store && id != excludeId && store[id] == rest[id];
    }
  }

  /** A cancelled or rejected row is invisible to the conflict query: the answer is
      the same as if the row were not stored at all. */
  lemma InactiveRowNeverBlocks(store: Store, r: Reservation, propertyId: int, checkIn: Instant, checkOut: Instant)
    requires !Active(r)
    ensures CheckPropertyAvailability(store[r.id := r], propertyId, checkIn, checkOut)
        <==> CheckPropertyAvailability(store - {r.id}, propertyId, checkIn, checkOut)
  {
    var with, without := store[r.id := r], store - {r.id};
    if CheckPropertyAvailability(with, propertyId, checkIn, checkOut) {
      var id :| id in with && Blocks(with[id], propertyId, checkIn, checkOut);
      assert id != r.id;
      assert id in without && without[id] == with[id];
    }
    if CheckPropertyAvailability(without, propertyId, checkIn, checkOut) {
      var id :| id in without && Blocks(without[id], propertyId, checkIn, checkOut);
      assert id in with && with[id] == without[id];
    }
  }

  // ---------------------------------------------------------------------------
  // Ordered listings

  predicate SortedByCheckIn(rows: seq<Reservation>)
  {
    forall i, j | 0 <= i < j < |rows| :: rows[i].checkIn <= rows[j].checkIn
  }

  /** Each row is no earlier than its predecessor. */
  predicate Ascending(rows: seq<Reservation>)
  {
    forall i | 0 < i < |rows| :: rows[i - 1].checkIn <= rows[i].checkIn
  }

  lemma {:induction false} AscendingIsSorted(rows: seq<Reservation>)
    requires Ascending(rows)
    ensures SortedByCheckIn(rows)
    decreases |rows|
  {
    if |rows| > 1 {
      var tail := rows[1..];
      assert Ascending(tail) by {
        forall i | 0 < i < |tail| ensures tail[i - 1].checkIn <= tail[i].checkIn {
          assert tail[i - 1] == rows[i] && tail[i] == rows[i + 1];
        }
      }
      AscendingIsSorted(tail);
      forall i, j | 0 <= i < j < |rows| ensures rows[i].checkIn <= rows[j].checkIn {
        if i == 0 {
          assert rows[1].checkIn <= rows[j].checkIn by {
            if j > 1 { assert tail[0] == rows[1] && tail[j - 1] == rows[j]; }
          }
        } else {
          assert tail[i - 1] == rows[i] && tail[j - 1] == rows[j];
        }
      }
    }
  }

  /** Places a row into a listing ordered by check-in. */
  function InsertByCheckIn(rows: seq<Reservation>, r: Reservation): (out: seq<Reservation>)
    requires Ascending(rows)
    ensures Ascending(out)
    ensures multiset(out) == multiset(rows) + multiset{r}
    ensures |out| == |rows| + 1
    ensures out[0] == r || (|rows| > 0 && out[0] == rows[0])
    decreases |rows|
  {
    if |rows| == 0 then [r]
    else if r.checkIn <= rows[0].checkIn then [r] + rows
    else
      var rest := rows[1..];
      assert Ascending(rest) by {
        forall i | 0 < i < |rest| ensures rest[i - 1].checkIn <= rest[i].checkIn {
          assert rest[i - 1] == rows[i] && rest[i] == rows[i + 1];
        }
      }
      var tail := InsertByCheckIn(rest, r);
      assert rows == [rows[0]] + rest;
      [rows[0]] + tail
  }

  /** The rows a query selects, as a set of row values. */
  ghost function Selected(store: Store, keep: Reservation -> bool): (rows: set<Reservation>)
  {
    set id | id in store && keep(store[id]) :: store[id]
  }

  /** Collects the selected rows in ascending check-in order; rows with equal
      check-in come out in an unspecified order, as with `ORDER BY` in SQL. */
  method CollectByCheckIn(store: Store, keep: Reservation -> bool) returns (rows: seq<Reservation>)
    ensures SortedByCheckIn(rows)
    ensures multiset(rows) == multiset(Selected(store, keep))
  {
    var todo := set id | id in store && keep(store[id]) :: store[id];
    rows := [];
    while todo != {}
      invariant Ascending(rows)
      invariant multiset(rows) + multiset(todo) == multiset(Selected(store, keep))
      decreases |todo|
    {
      var r :| r in todo;
      assert multiset(todo) == multiset(todo - {r}) + multiset{r};
      rows := InsertByCheckIn(rows, r);
      todo := todo - {r};
    }
    AscendingIsSorted(rows);
  }

  /** `GetUpcomingReservations`: check-in strictly after `now`, not cancelled,
      rejected or completed. */
  predicate IsUpcoming(r: Reservation, now: Instant)
  {
    r.checkIn > now && r.status != Cancelled && r.status != Rejected && r.status != Completed
  }

  method GetUpcomingReservations(store: Store, now: Instant) returns (rows: seq<Reservation>)
    ensures SortedByCheckIn(rows)
    ensures forall r :: r in rows <==>
      (Stored(store, r) && r.checkIn > now && r.status !in {Cancelled, Rejected, Completed})
    ensures forall r | r in multiset(rows) :: multiset(rows)[r] == 1
  {
    rows := CollectByCheckIn(store, r => IsUpcoming(r, now));
    SelectedRows(store, r => IsUpcoming(r, now), rows);
  }

  /** `GetReservationsByDateRange`: check-in within `[start, end]`, both ends
      included; the check-out date plays no part. */
  predicate ChecksInWithin(r: Reservation, start: Instant, end: Instant)
  {
    start <= r.checkIn <= end
  }

  method GetReservationsByDateRange(store: Store, start: Instant, end: Instant) returns (rows: seq<Reservation>)
    ensures SortedByCheckIn(rows)
    ensures forall r :: r in rows <==> (Stored(store, r) && start <= r.checkIn && r.checkIn <= end)
    ensures forall r | r in multiset(rows) :: multiset(rows)[r] == 1
  {
    rows := CollectByCheckIn(store, r => ChecksInWithin(r, start, end));
    SelectedRows(store, r => ChecksInWithin(r, start, end), rows);
  }

  /** A listing equal, as a multiset, to the selected set holds each selected row
      once and nothing else. */
  lemma SelectedRows(store: Store, keep: Reservation -> bool, rows: seq<Reservation>)
    requires multiset(rows) == multiset(Selected(store, keep))
    ensures forall r :: r in rows <==> (Stored(store, r) && keep(r))
    ensures forall r | r in multiset(rows) :: multiset(rows)[r] == 1
  {
    var sel := Selected(store, keep);
    forall r
      ensures r in rows <==> (Stored(store, r) && keep(r))
    {
      assert r in rows <==> r in sel by {
        assert r in rows <==> r in multiset(rows);
      }
      if Stored(store, r) && keep(r) {
        var id :| id in store && store[id] == r;
        assert r in sel;
      }
    }
  }
}
