/**
 * The database: the four Mongoose collections as maps from document ids to
 * documents. Ids are handed out in increasing order, so ascending id order
 * is the natural (insertion) order in which `find` returns documents.
 *
 * Every write goes through a method that keeps `Valid()`: the schema
 * validators of each stored document, the unique indexes (user email;
 * booking customer and car), one history per customer, and the five-car
 * bound that `createCar` enforces. Each write states the whole new state.
 */
module Store {
  import opened Common
  import opened UserModel
  import opened CarModel
  import opened BookingModel
  import opened VisitModel

  /** Inserting a valid car at the next id, for an owner holding fewer than
      five, keeps the Car collection valid. */
  lemma CarsValidInsert(m: map<Id, Car>, n: nat, c: Car)
    requires Bounded(m, n) && CarsValid(m, n)
    requires StoredCar(c) && OwnerCount(m, c.ownerId, n) < MaxCarsPerOwner
    ensures CarsValid(m[n := c], n + 1)
  {
    var after, bound := m[n := c], n + 1;
    forall o: Id ensures OwnerCount(after, o, bound) <= MaxCarsPerOwner {
      OwnerCountInsert(m, o, n, c);
    }
  }

  /** The database invariant over the collections and the next id. */
  ghost predicate Consistent(users: map<Id, User>, cars: map<Id, Car>, bookings: map<Id, Booking>,
                             visits: map<Id, VisitRecord>, n: nat)
  {
    && Bounded(users, n) && Bounded(cars, n) && Bounded(bookings, n) && Bounded(visits, n)
    && UsersValid(users)
    && CarsValid(cars, n)
    && BookingsValid(bookings)
    && VisitsValid(visits)
  }

  /** Moving past a fresh id keeps every owner's car count, so inserting
      into another collection keeps the Car collection valid. */
  lemma CarsValidExtend(m: map<Id, Car>, n: nat)
    requires Bounded(m, n) && CarsValid(m, n)
    ensures CarsValid(m, n + 1)
  {
    var bound := n + 1;
    forall o: Id ensures OwnerCount(m, o, bound) == OwnerCount(m, o, n) {
      assert n !in m;
    }
  }

  /** Inserting a user as `InsertUser` does keeps the database consistent. */
  lemma ConsistentInsertUser(users: map<Id, User>, cars: map<Id, Car>, bookings: map<Id, Booking>,
                             visits: map<Id, VisitRecord>, n: nat, u: User)
    requires Consistent(users, cars, bookings, visits, n)
    requires StoredUser(u) && forall k :: k in users ==> users[k].email != u.email
    ensures Consistent(users[n := u], cars, bookings, visits, n + 1)
  {
    CarsValidExtend(cars, n);
  }

  /** Inserting a car as `InsertCar` does keeps the database consistent. */
  lemma ConsistentInsertCar(users: map<Id, User>, cars: map<Id, Car>, bookings: map<Id, Booking>,
                            visits: map<Id, VisitRecord>, n: nat, c: Car)
    requires Consistent(users, cars, bookings, visits, n)
    requires StoredCar(c) && OwnerCount(cars, c.ownerId, n) < MaxCarsPerOwner
    ensures Consistent(users, cars[n := c], bookings, visits, n + 1)
  {
    CarsValidInsert(cars, n, c);
  }

  /** Replacing a car by a valid one of the same owner, as `SetCar` does,
      keeps the database consistent. */
  lemma ConsistentSetCar(users: map<Id, User>, cars: map<Id, Car>, bookings: map<Id, Booking>,
                         visits: map<Id, VisitRecord>, n: nat, id: Id, c: Car)
    requires Consistent(users, cars, bookings, visits, n) && id in cars
    requires StoredCar(c) && c.ownerId == cars[id].ownerId
    ensures Consistent(users, cars[id := c], bookings, visits, n)
  {
    var after := cars[id := c];
    forall o: Id ensures OwnerCount(after, o, n) == OwnerCount(cars, o, n) {
      OwnerCountAgree(after, cars, o, n);
    }
  }

  /** Deleting a car, as `RemoveCar` does, keeps the database consistent. */
  lemma ConsistentRemoveCar(users: map<Id, User>, cars: map<Id, Car>, bookings: map<Id, Booking>,
                            visits: map<Id, VisitRecord>, n: nat, id: Id)
    requires Consistent(users, cars, bookings, visits, n)
    ensures Consistent(users, cars - {id}, bookings, visits, n)
  {
    var after := cars - {id};
    forall o: Id ensures OwnerCount(after, o, n) <= OwnerCount(cars, o, n) {
      OwnerCountShrink(cars, o, n, id);
    }
  }

  /** Inserting a booking as `InsertBooking` does keeps the database
      consistent. */
  lemma ConsistentInsertBooking(users: map<Id, User>, cars: map<Id, Car>, bookings: map<Id, Booking>,
                                visits: map<Id, VisitRecord>, n: nat, b: Booking)
    requires Consistent(users, cars, bookings, visits, n)
    requires StoredBooking(b) && !PairTaken(bookings, b.customerId, b.carId)
    ensures Consistent(users, cars, bookings[n := b], visits, n + 1)
  {
    CarsValidExtend(cars, n);
  }

  /** Inserting a history as `InsertVisit` does keeps the database
      consistent. */
  lemma ConsistentInsertVisit(users: map<Id, User>, cars: map<Id, Car>, bookings: map<Id, Booking>,
                              visits: map<Id, VisitRecord>, n: nat, r: VisitRecord)
    requires Consistent(users, cars, bookings, visits, n)
    requires HistoryValid(r.visitedShowrooms) && forall k :: k in visits ==> visits[k].customerId != r.customerId
    ensures Consistent(users, cars, bookings, visits[n := r], n + 1)
  {
    CarsValidExtend(cars, n);
  }

  class Db {
    var users: map<Id, User>
    var cars: map<Id, Car>
    var bookings: map<Id, Booking>
    var visits: map<Id, VisitRecord>
    /** The id the next inserted document gets. */
    var nextId: nat

    ghost predicate Valid()
      reads this
    {
      Consistent(users, cars, bookings, visits, nextId)
    }

    /** An empty database. */
    constructor ()
      ensures Valid()
      ensures users == map[] && cars == map[] && bookings == map[] && visits == map[]
    {
      users, cars, bookings, visits := map[], map[], map[], map[];
      nextId := 0;
    }

    /** `User.create`: inserts a valid user whose email is not taken. */
    method InsertUser(u: User) returns (id: Id)
      requires Valid()
      requires StoredUser(u) && forall k :: k in users ==> users[k].email != u.email
      modifies this
      ensures Valid()
      ensures id == old(nextId) && nextId == old(nextId) + 1
      ensures users == old(users)[id := u]
      ensures cars == old(cars) && bookings == old(bookings) && visits == old(visits)
    {
      id := nextId;
      ConsistentInsertUser(users, cars, bookings, visits, id, u);
      users, nextId := users[id := u], id + 1;
    }

    /** `user.save()` on an existing user, once the document validates. */
    method SetUser(id: Id, u: User)
      requires Valid() && id in users
      requires StoredUser(u) && forall k :: k in users && k != id ==> users[k].email != u.email
      modifies this
      ensures Valid()
      ensures users == old(users)[id := u] && nextId == old(nextId)
      ensures cars == old(cars) && bookings == old(bookings) && visits == old(visits)
    {
      users := users[id := u];
    }

    /** `Car.create`: inserts a valid car for an owner holding fewer than five. */
    method InsertCar(c: Car) returns (id: Id)
      requires Valid()
      requires StoredCar(c) && OwnerCount(cars, c.ownerId, nextId) < MaxCarsPerOwner
      modifies this
      ensures id == old(nextId) && nextId == old(nextId) + 1
      ensures cars == old(cars)[id := c]
      ensures users == old(users) && bookings == old(bookings) && visits == old(visits)
      ensures Valid()
    {
      id := nextId;
      ConsistentInsertCar(users, cars, bookings, visits, id, c);
      cars, nextId := cars[id := c], id + 1;
    }

    /** `car.save()` on an existing car, once the document validates; the
        owner of a car never changes. */
    method SetCar(id: Id, c: Car)
      requires Valid() && id in cars
      requires StoredCar(c) && c.ownerId == cars[id].ownerId
      modifies this
      ensures Valid()
      ensures cars == old(cars)[id := c] && nextId == old(nextId)
      ensures users == old(users) && bookings == old(bookings) && visits == old(visits)
    {
      ConsistentSetCar(users, cars, bookings, visits, nextId, id, c);
      cars := cars[id := c];
    }

    /** `car.save()` as validate-then-commit: the car is written when it
        passes the schema validators, and nothing changes when it does not. */
    method SaveCar(id: Id, c: Car) returns (ok: bool)
      requires Valid() && id in cars
      requires Trimmed(c) && c.ownerId == cars[id].ownerId
      modifies this
      ensures Valid()
      ensures ok <==> CarValid(c)
      ensures ok ==> cars == old(cars)[id := c]
      ensures !ok ==> cars == old(cars)
      ensures users == old(users) && bookings == old(bookings) && visits == old(visits) && nextId == old(nextId)
    {
      ok := CarValid(c);
      if ok {
        SetCar(id, c);
      }
    }

    /** `Car.findByIdAndDelete` on an existing car. */
    method RemoveCar(id: Id)
      requires Valid() && id in cars
      modifies this
      ensures Valid()
      ensures cars == old(cars) - {id} && nextId == old(nextId)
      ensures users == old(users) && bookings == old(bookings) && visits == old(visits)
    {
      ConsistentRemoveCar(users, cars, bookings, visits, nextId, id);
      cars := cars - {id};
    }

    /** `CarBookings.create`: inserts a valid booking for a pair not yet booked. */
    method InsertBooking(b: Booking) returns (id: Id)
      requires Valid()
      requires StoredBooking(b) && !PairTaken(bookings, b.customerId, b.carId)
      modifies this
      ensures Valid()
      ensures id == old(nextId) && nextId == old(nextId) + 1
      ensures bookings == old(bookings)[id := b]
      ensures users == old(users) && cars == old(cars) && visits == old(visits)
    {
      id := nextId;
      ConsistentInsertBooking(users, cars, bookings, visits, id, b);
      bookings, nextId := bookings[id := b], id + 1;
    }

    /** `booking.save()` on an existing booking, once the document validates;
        its customer and car never change. */
    method SetBooking(id: Id, b: Booking)
      requires Valid() && id in bookings
      requires StoredBooking(b) && b.customerId == bookings[id].customerId && b.carId == bookings[id].carId
      modifies this
      ensures Valid()
      ensures bookings == old(bookings)[id := b] && nextId == old(nextId)
      ensures users == old(users) && cars == old(cars) && visits == old(visits)
    {
      bookings := bookings[id := b];
    }

    /** `RecentlyVisitedShowroom.create` for a customer without a history. */
    method InsertVisit(r: VisitRecord) returns (id: Id)
      requires Valid()
      requires HistoryValid(r.visitedShowrooms) && forall k :: k in visits ==> visits[k].customerId != r.customerId
      modifies this
      ensures Valid()
      ensures id == old(nextId) && nextId == old(nextId) + 1
      ensures visits == old(visits)[id := r]
      ensures users == old(users) && cars == old(cars) && bookings == old(bookings)
    {
      id := nextId;
      ConsistentInsertVisit(users, cars, bookings, visits, id, r);
      visits, nextId := visits[id := r], id + 1;
    }

    /** `showroom.save()` on an existing history; its customer never changes. */
    method SetVisits(id: Id, s: seq<Visit>)
      requires Valid() && id in visits && HistoryValid(s)
      modifies this
      ensures Valid()
      ensures visits == old(visits)[id := old(visits)[id].(visitedShowrooms := s)] && nextId == old(nextId)
      ensures users == old(users) && cars == old(cars) && bookings == old(bookings)
    {
      visits := visits[id := visits[id].(visitedShowrooms := s)];
    }

    /**
     * `addShowroom(o)` on the history document `docId`: it re-fetches the
     * document, fails without a change when it is gone, and otherwise saves
     * the list `Revisit` computes. It returns whether it succeeded.
     */
    method AddShowroom(docId: Id, o: Id, now: Time) returns (ok: bool)
      requires Valid()
      modifies this
      ensures Valid()
      ensures ok <==> docId in old(visits)
      ensures !ok ==> visits == old(visits)
      ensures ok ==> visits == old(visits)[docId := old(visits)[docId].(visitedShowrooms := Revisit(old(visits)[docId].visitedShowrooms, o, now))]
      ensures users == old(users) && cars == old(cars) && bookings == old(bookings) && nextId == old(nextId)
    {
      if docId !in visits {
        return false;
      }
      var latest := visits[docId].visitedShowrooms;
      RevisitKeepsUnique(latest, o, now);
      SetVisits(docId, Revisit(latest, o, now));
      return true;
    }
  }
}
