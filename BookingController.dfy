/**
 * The booking handlers (controllers/CarBooking.js): a customer sends a
 * booking, the car's owner accepts it (using up one unit of the car) or
 * anyone rejects it, and seven listings join the matching bookings with
 * the users and cars they refer to. The caller id is the `userId` of the
 * verified token.
 */
module BookingController {
  import opened Common
  import JsString
  import opened UserModel
  import opened CarModel
  import opened BookingModel
  import opened Store

  /**
   * `SaveCarBooking`: the customer is the caller; car, owner and text are
   * taken from the request as given. A document that fails validation
   * answers 400 with its errors; a pair already booked breaks the unique
   * index, which is not a validation error, and answers 500. Otherwise the
   * booking is inserted (Pending, expiring in seven days) and saved a second
   * time, which changes nothing.
   */
  method SaveCarBooking(db: Db, caller: Id, carId: Option<Id>, ownerId: Option<Id>, content: Option<string>, now: Time)
    returns (status: int, errors: seq<BookingError>)
    requires db.Valid()
    modifies db
    ensures db.Valid()
    ensures db.users == old(db.users) && db.cars == old(db.cars) && db.visits == old(db.visits)
    ensures var q := BookingRequest(caller, carId, ownerId, content);
      && (RequestErrors(q) != [] ==> status == BAD_REQUEST && errors == RequestErrors(q) && db.bookings == old(db.bookings))
      && (RequestErrors(q) == [] && PairTaken(old(db.bookings), caller, carId.value) ==>
            status == SERVER_ERROR && errors == [] && db.bookings == old(db.bookings))
      && (RequestErrors(q) == [] && !PairTaken(old(db.bookings), caller, carId.value) ==>
            && status == OK && errors == []
            && db.bookings == old(db.bookings)[old(db.nextId) := NewBooking(q, now).(expiryDate := Some(now + Week))])
      && (if status == OK then db.nextId == old(db.nextId) + 1 else db.nextId == old(db.nextId))
  {
    var q := BookingRequest(caller, carId, ownerId, content);
    errors := RequestErrors(q);
    if errors != [] {
      return BAD_REQUEST, errors;
    }
    var created := BookingModel.PreSave(NewBooking(q, now), false, now);
    if PairTaken(db.bookings, caller, carId.value) {
      return SERVER_ERROR, [];
    }
    var id := db.InsertBooking(created);
    var again := BookingModel.PreSave(created, false, now);
    PreSaveStable(NewBooking(q, now), false, now, now);
    db.SetBooking(id, again);
    status := OK;
  }

  /** The guard on an owner's reply and on a rejection reason: present, and
      at least five characters once trimmed. */
  predicate ReplyLongEnough(reply: Option<string>) {
    reply.Some? && |JsString.Trim(reply.value)| >= 5
  }

  /**
   * `changeBookingStatusToComplete` (accept). Checks in order: the reply
   * (400), the booking (404), that the caller owns it (403), the car (404),
   * and that the car has a unit left (400; never taken while every stored car
   * has at least one). The car is saved with one unit less before the
   * booking; that save fails validation when the last unit would go, which
   * answers 500 with nothing changed. The booking's status is not checked,
   * and `carId` need not be the booked car.
   */
  method AcceptBooking(db: Db, caller: Id, bookingId: Id, carId: Id, reply: Option<string>, now: Time)
    returns (status: int)
    requires db.Valid()
    modifies db
    ensures db.Valid()
    ensures db.users == old(db.users) && db.visits == old(db.visits) && db.nextId == old(db.nextId)
    ensures
      if !ReplyLongEnough(reply) then status == BAD_REQUEST && db.cars == old(db.cars) && db.bookings == old(db.bookings)
      else if bookingId !in old(db.bookings) then status == NOT_FOUND && db.cars == old(db.cars) && db.bookings == old(db.bookings)
      else if old(db.bookings)[bookingId].ownerId != caller then status == FORBIDDEN && db.cars == old(db.cars) && db.bookings == old(db.bookings)
      else if carId !in old(db.cars) then status == NOT_FOUND && db.cars == old(db.cars) && db.bookings == old(db.bookings)
      else if old(db.cars)[carId].carsCount == 1 then status == SERVER_ERROR && db.cars == old(db.cars) && db.bookings == old(db.bookings)
      else
        && status == OK
        && db.cars == old(db.cars)[carId := old(db.cars)[carId].(carsCount := old(db.cars)[carId].carsCount - 1)]
        && db.bookings == old(db.bookings)[bookingId := old(db.bookings)[bookingId].(
             bookingStatus := Accepted, ownerReplyToBooking := Some(reply.value), ownerReplyToBookingDate := Some(now))]
  {
    if !ReplyLongEnough(reply) {
      return BAD_REQUEST;
    }
    if bookingId !in db.bookings {
      return NOT_FOUND;
    }
    var booking := db.bookings[bookingId];
    if booking.ownerId != caller {
      return FORBIDDEN;
    }
    if carId !in db.cars {
      return NOT_FOUND;
    }
    StoredCarHasUnits(db.cars[carId]);
    if db.cars[carId].carsCount <= 0 {
      return BAD_REQUEST;
    }
    var saved := CommitAccept(db, bookingId, carId, reply.value, now);
    status := if saved then OK else SERVER_ERROR;
  }

  /** The two saves of an accept that passed its checks: the car with one
      unit less, validated, then, if that succeeded, the booking, Accepted
      with the reply dated now. The car's save fails exactly when its last
      unit would go. */
  method CommitAccept(db: Db, bookingId: Id, carId: Id, reply: string, now: Time) returns (saved: bool)
    requires db.Valid() && bookingId in db.bookings && carId in db.cars
    modifies db
    ensures db.Valid()
    ensures db.users == old(db.users) && db.visits == old(db.visits) && db.nextId == old(db.nextId)
    ensures saved <==> old(db.cars)[carId].carsCount > 1
    ensures !saved ==> db.cars == old(db.cars) && db.bookings == old(db.bookings)
    ensures saved ==> db.cars == old(db.cars)[carId := old(db.cars)[carId].(carsCount := old(db.cars)[carId].carsCount - 1)]
    ensures saved ==> db.bookings == old(db.bookings)[bookingId := old(db.bookings)[bookingId].(
      bookingStatus := Accepted, ownerReplyToBooking := Some(reply), ownerReplyToBookingDate := Some(now))]
  {
    var car := db.cars[carId];
    StoredCarHasUnits(car);
    var fewer := car.(carsCount := car.carsCount - 1);
    assert Trimmed(fewer) by {
      assert fewer.modelName == car.modelName && fewer.description == car.description;
    }
    saved := db.SaveCar(carId, fewer);
    if saved {
      var b := db.bookings[bookingId];
      DecidedStaysStored(b, Accepted, reply, now);
      db.SetBooking(bookingId, BookingModel.PreSave(b.(bookingStatus := Accepted, ownerReplyToBooking := Some(reply), ownerReplyToBookingDate := Some(now)), true, now));
    }
  }

  /**
   * `changeBookingStatusToReject`: 400 without a booking id or a reason of
   * five trimmed characters, 404 for an unknown booking; otherwise the
   * booking becomes Rejected with the reason as the owner's reply, dated
   * now. Anyone may reject any booking, and no car is read or written.
   */
  method RejectBooking(db: Db, bookingId: Option<Id>, reason: Option<string>, now: Time) returns (status: int)
    requires db.Valid()
    modifies db
    ensures db.Valid()
    ensures db.users == old(db.users) && db.cars == old(db.cars) && db.visits == old(db.visits) && db.nextId == old(db.nextId)
    ensures
      if bookingId.None? || !ReplyLongEnough(reason) then status == BAD_REQUEST && db.bookings == old(db.bookings)
      else if bookingId.value !in old(db.bookings) then status == NOT_FOUND && db.bookings == old(db.bookings)
      else
        && status == OK
        && db.bookings == old(db.bookings)[bookingId.value := old(db.bookings)[bookingId.value].(
             bookingStatus := Rejected, ownerReplyToBooking := Some(reason.value), ownerReplyToBookingDate := Some(now))]
  {
    if bookingId.None? || !ReplyLongEnough(reason) {
      return BAD_REQUEST;
    }
    var id := bookingId.value;
    if id !in db.bookings {
      return NOT_FOUND;
    }
    var b := db.bookings[id];
    DecidedStaysStored(b, Rejected, reason.value, now);
    db.SetBooking(id, BookingModel.PreSave(b.(bookingStatus := Rejected, ownerReplyToBooking := Some(reason.value), ownerReplyToBookingDate := Some(now)), true, now));
    status := OK;
  }

  // ---------------------------------------------------------------------
  // Listings

  /** The filter `{ ownerId, bookingStatus }`. */
  function ForOwner(o: Id, s: BookingStatus): Booking -> bool {
    (b: Booking) => b.ownerId == o && b.bookingStatus == s
  }

  /** The filter `{ customerId, bookingStatus }`. */
  function ForCustomer(c: Id, s: BookingStatus): Booking -> bool {
    (b: Booking) => b.customerId == c && b.bookingStatus == s
  }

  /** The filter `{ carId, ownerId, bookingStatus: "Pending" }`. */
  function ForOwnerCar(o: Id, car: Id): Booking -> bool {
    (b: Booking) => b.carId == car && b.ownerId == o && b.bookingStatus == Pending
  }

  /** The filter `{ ownerId, bookingStatus: "Pending", carId: { $ne: car } }`.
      Without a car id the driver sends `$ne: null`, which every booking
      passes, since each one has its required `carId`. */
  function ForOwnerOtherCars(o: Id, car: Option<Id>): Booking -> bool {
    (b: Booking) => b.ownerId == o && b.bookingStatus == Pending && (car.None? || b.carId != car.value)
  }

  /** Which referenced records a listing looks up for each booking. */
  datatype Needs = Needs(customer: bool, car: bool, owner: bool)

  const CustomerOnly := Needs(true, false, false)
  const CustomerAndCar := Needs(true, true, false)
  const CustomerAndOwner := Needs(true, false, true)
  const Everything := Needs(true, true, true)

  /** One entry of a listing: the booking with the records it was joined
      with (`None` for a record the listing does not look up). */
  datatype Row = Row(bookingId: Id, booking: Booking, customer: Option<User>, car: Option<Car>, owner: Option<User>)

  /** Every record the listing looks up for `b` exists. */
  predicate Complete(b: Booking, users: map<Id, User>, cars: map<Id, Car>, needs: Needs) {
    && (needs.customer ==> b.customerId in users)
    && (needs.car ==> b.carId in cars)
    && (needs.owner ==> b.ownerId in users)
  }

  /** The entry for booking `id` joined with what the listing looks up. */
  function RowOf(id: Id, b: Booking, users: map<Id, User>, cars: map<Id, Car>, needs: Needs): Row {
    Row(id, b,
        if needs.customer then Lookup(users, b.customerId) else None,
        if needs.car then Lookup(cars, b.carId) else None,
        if needs.owner then Lookup(users, b.ownerId) else None)
  }

  /** The booking ids of a listing, in its order. */
  function RowIds(rows: seq<Row>): (r: seq<Id>)
    ensures |r| == |rows| && forall k :: 0 <= k < |rows| ==> r[k] == rows[k].bookingId
  {
    seq(|rows|, k requires 0 <= k < |rows| => rows[k].bookingId)
  }

  predicate Ascending(ids: seq<Id>) {
    forall i, j :: 0 <= i < j < |ids| ==> ids[i] < ids[j]
  }

  /**
   * The joined listing of the bookings `ids`: a booking whose customer, car
   * or owner (as far as the listing looks them up) is missing is skipped;
   * the rest keep their order. Each entry is joined with the stored records.
   */
  function Enrich(ids: seq<Id>, bookings: map<Id, Booking>, users: map<Id, User>, cars: map<Id, Car>, needs: Needs): (rows: seq<Row>)
    requires forall id :: id in ids ==> id in bookings
    ensures |rows| <= |ids|
    ensures forall k :: 0 <= k < |rows| ==> rows[k].bookingId in ids
    ensures forall k :: 0 <= k < |rows| ==>
      && Complete(bookings[rows[k].bookingId], users, cars, needs)
      && rows[k] == RowOf(rows[k].bookingId, bookings[rows[k].bookingId], users, cars, needs)
  {
    if ids == [] then []
    else
      var init := ids[..|ids| - 1];
      var last := ids[|ids| - 1];
      assert forall id :: id in init ==> id in ids;
      var front := Enrich(init, bookings, users, cars, needs);
      if Complete(bookings[last], users, cars, needs) then front + [RowOf(last, bookings[last], users, cars, needs)]
      else front
  }

  /** Unfolding `Enrich` at its last booking. */
  lemma EnrichLast(ids: seq<Id>, bookings: map<Id, Booking>, users: map<Id, User>, cars: map<Id, Car>, needs: Needs)
    requires ids != [] && forall id :: id in ids ==> id in bookings
    ensures var init := ids[..|ids| - 1]; var last := ids[|ids| - 1];
      && (forall id :: id in init ==> id in bookings)
      && RowIds(Enrich(ids, bookings, users, cars, needs)) ==
           RowIds(Enrich(init, bookings, users, cars, needs)) + (if Complete(bookings[last], users, cars, needs) then [last] else [])
  {
    var init := ids[..|ids| - 1];
    assert forall id :: id in init ==> id in ids;
  }

  /** A booking is listed exactly when it is among `ids` and its records
      exist. */
  lemma {:induction false} EnrichListsComplete(ids: seq<Id>, bookings: map<Id, Booking>, users: map<Id, User>, cars: map<Id, Car>, needs: Needs, id: Id)
    requires forall x :: x in ids ==> x in bookings
    ensures id in RowIds(Enrich(ids, bookings, users, cars, needs)) <==> id in ids && Complete(bookings[id], users, cars, needs)
  {
    if ids != [] {
      EnrichLast(ids, bookings, users, cars, needs);
      EnrichListsComplete(ids[..|ids| - 1], bookings, users, cars, needs, id);
      assert ids == ids[..|ids| - 1] + [ids[|ids| - 1]];
    }
  }

  /** Nothing is skipped exactly when every booking's records exist. */
  lemma {:induction false} EnrichKeepsAll(ids: seq<Id>, bookings: map<Id, Booking>, users: map<Id, User>, cars: map<Id, Car>, needs: Needs)
    requires forall x :: x in ids ==> x in bookings
    ensures |Enrich(ids, bookings, users, cars, needs)| == |ids| <==> forall x :: x in ids ==> Complete(bookings[x], users, cars, needs)
  {
    if ids != [] {
      EnrichLast(ids, bookings, users, cars, needs);
      EnrichKeepsAll(ids[..|ids| - 1], bookings, users, cars, needs);
      assert ids == ids[..|ids| - 1] + [ids[|ids| - 1]];
    }
  }

  /** A listing of ascending ids is in ascending order, so no booking is
      listed twice. */
  lemma {:induction false} EnrichAscending(ids: seq<Id>, bookings: map<Id, Booking>, users: map<Id, User>, cars: map<Id, Car>, needs: Needs)
    requires forall x :: x in ids ==> x in bookings
    requires Ascending(ids)
    ensures Ascending(RowIds(Enrich(ids, bookings, users, cars, needs)))
  {
    if ids != [] {
      var init := ids[..|ids| - 1];
      var last := ids[|ids| - 1];
      EnrichLast(ids, bookings, users, cars, needs);
      EnrichAscending(init, bookings, users, cars, needs);
      var front := RowIds(Enrich(init, bookings, users, cars, needs));
      forall k | 0 <= k < |front| ensures front[k] < last {
        var j :| 0 <= j < |init| && init[j] == front[k];
      }
    }
  }

  /** The `for ... of` loops of the listings: look up each booking's records
      and push the joined entry unless one is missing. */
  method JoinEach(ids: seq<Id>, bookings: map<Id, Booking>, users: map<Id, User>, cars: map<Id, Car>, needs: Needs)
    returns (rows: seq<Row>)
    requires forall id :: id in ids ==> id in bookings
    ensures rows == Enrich(ids, bookings, users, cars, needs)
  {
    rows := [];
    for i := 0 to |ids|
      invariant forall id :: id in ids[..i] ==> id in bookings
      invariant rows == Enrich(ids[..i], bookings, users, cars, needs)
    {
      assert ids[..i + 1][..i] == ids[..i];
      assert forall id :: id in ids[..i + 1] ==> id in ids;
      var b := bookings[ids[i]];
      if Complete(b, users, cars, needs) {
        rows := rows + [RowOf(ids[i], b, users, cars, needs)];
      }
    }
    assert ids[..|ids|] == ids;
  }

  /**
   * `fetchAllPendingBookingsForOwner`: 404 when the owner has no pending
   * booking; 500 when one of them lacks its customer or owner (the lookup
   * throws instead of skipping); otherwise 200 with every one of them joined.
   */
  function PendingForOwner(bookings: map<Id, Booking>, users: map<Id, User>, cars: map<Id, Car>, o: Id, n: nat): (r: (int, seq<Row>))
    ensures var found := Scan(bookings, ForOwner(o, Pending), n);
      && (found == [] ==> r.0 == NOT_FOUND && r.1 == [])
      && (found != [] && (exists i :: 0 <= i < |found| && !Complete(bookings[found[i]], users, cars, CustomerAndOwner)) ==>
            r.0 == SERVER_ERROR && r.1 == [])
      && (found != [] && (forall i :: 0 <= i < |found| ==> Complete(bookings[found[i]], users, cars, CustomerAndOwner)) ==>
            && r.0 == OK && |r.1| == |found|
            && forall i :: 0 <= i < |found| ==> r.1[i] == RowOf(found[i], bookings[found[i]], users, cars, CustomerAndOwner))
  {
    var found := Scan(bookings, ForOwner(o, Pending), n);
    if found == [] then (NOT_FOUND, [])
    else if exists i :: 0 <= i < |found| && !Complete(bookings[found[i]], users, cars, CustomerAndOwner) then (SERVER_ERROR, [])
    else
      (OK, seq(|found|, i requires 0 <= i < |found| => RowOf(found[i], bookings[found[i]], users, cars, CustomerAndOwner)))
  }

  /**
   * `fetchCompletedBookingsForOwner`: 404 when the owner has no accepted
   * booking; otherwise 200 with those whose customer, owner and car all
   * exist (possibly none: `filter(Boolean)` drops the others).
   */
  function CompletedForOwner(bookings: map<Id, Booking>, users: map<Id, User>, cars: map<Id, Car>, o: Id, n: nat): (r: (int, seq<Row>))
    ensures var found := Scan(bookings, ForOwner(o, Accepted), n);
      && (found == [] <==> r.0 == NOT_FOUND)
      && (found != [] ==> r.0 == OK && r.1 == Enrich(found, bookings, users, cars, Everything))
  {
    var found := Scan(bookings, ForOwner(o, Accepted), n);
    if found == [] then (NOT_FOUND, []) else (OK, Enrich(found, bookings, users, cars, Everything))
  }

  /**
   * `fetchSpecificCarPendingDetails`: 400 without a car id; 404 when the
   * owner has no pending booking for the car; otherwise 200 with those whose
   * customer exists (possibly none).
   */
  method SpecificCarPending(db: Db, o: Id, carId: Option<Id>) returns (status: int, rows: seq<Row>)
    ensures carId.None? ==> status == BAD_REQUEST && rows == []
    ensures carId.Some? ==>
      var found := Scan(db.bookings, ForOwnerCar(o, carId.value), db.nextId);
      && (found == [] ==> status == NOT_FOUND && rows == [])
      && (found != [] ==> status == OK && rows == Enrich(found, db.bookings, db.users, db.cars, CustomerOnly))
  {
    if carId.None? {
      return BAD_REQUEST, [];
    }
    var found := Scan(db.bookings, ForOwnerCar(o, carId.value), db.nextId);
    if found == [] {
      return NOT_FOUND, [];
    }
    rows := JoinEach(found, db.bookings, db.users, db.cars, CustomerOnly);
    status := OK;
  }

  /** `fetchPendingBookingsForOtherCars`: the owner's pending bookings for
      every car but `car` (every car at all when the query has no `carId`)
      whose customer and car exist; 404 when none is left. */
  method OtherCarsPending(db: Db, o: Id, car: Option<Id>) returns (status: int, rows: seq<Row>)
    ensures rows == Enrich(Scan(db.bookings, ForOwnerOtherCars(o, car), db.nextId), db.bookings, db.users, db.cars, CustomerAndCar)
    ensures status == (if rows == [] then NOT_FOUND else OK)
  {
    var found := Scan(db.bookings, ForOwnerOtherCars(o, car), db.nextId);
    rows := JoinEach(found, db.bookings, db.users, db.cars, CustomerAndCar);
    status := if rows == [] then NOT_FOUND else OK;
  }

  /** `fetchPendingBookingsForCustomer`, `fetchAcceptedBookingsForCustomer`
      and `fetchRejectedBookingsForCustomer`, for status `s`: the caller's
      bookings with that status whose customer, car and owner exist; 404 when
      none is left. */
  method CustomerBookings(db: Db, c: Id, s: BookingStatus) returns (status: int, rows: seq<Row>)
    ensures rows == Enrich(Scan(db.bookings, ForCustomer(c, s), db.nextId), db.bookings, db.users, db.cars, Everything)
    ensures status == (if rows == [] then NOT_FOUND else OK)
  {
    var found := Scan(db.bookings, ForCustomer(c, s), db.nextId);
    rows := JoinEach(found, db.bookings, db.users, db.cars, Everything);
    status := if rows == [] then NOT_FOUND else OK;
  }

  /**
   * What every listing returns, in terms of the store: a booking is listed
   * exactly when it matches the filter and its records exist, in natural
   * order and at most once.
   */
  lemma ListingIsFilteredJoin(bookings: map<Id, Booking>, users: map<Id, User>, cars: map<Id, Car>,
                              keep: Booking -> bool, n: nat, needs: Needs, id: Id)
    ensures var ids := RowIds(Enrich(Scan(bookings, keep, n), bookings, users, cars, needs));
      && (id in ids <==> id < n && id in bookings && keep(bookings[id]) && Complete(bookings[id], users, cars, needs))
      && Ascending(ids)
  {
    var found := Scan(bookings, keep, n);
    EnrichListsComplete(found, bookings, users, cars, needs, id);
    EnrichAscending(found, bookings, users, cars, needs);
  }
}
