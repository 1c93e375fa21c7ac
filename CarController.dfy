/**
 * The car and showroom handlers (controllers/Car.js). Uploaded files are
 * given by their stored file names. A multipart field is `None` when it is
 * absent or empty; a number field that is present is taken as the whole
 * number its text casts to.
 */
module CarController {
  import opened Common
  import JsString
  import opened UserModel
  import opened CarModel
  import opened Store

  /** The stored path of an uploaded car image. */
  function ImagePath(file: string): (r: string)
    ensures |r| == |"/CarImages/"| + |file| && r[..|"/CarImages/"|] == "/CarImages/" && r[|"/CarImages/"|..] == file
  {
    "/CarImages/" + file
  }

  /** `req.files.map(file => "/CarImages/" + file.filename)`. */
  function ImagePaths(files: seq<string>): (r: seq<string>)
    ensures |r| == |files|
    ensures forall i :: 0 <= i < |files| ==> r[i] == ImagePath(files[i])
  {
    seq(|files|, i requires 0 <= i < |files| => ImagePath(files[i]))
  }

  /** The body of `createCar`, under the request's own field names. */
  datatype NewCarForm = NewCarForm(
    id: Id,
    modelName: Option<string>,
    engineType: Option<string>,
    carPrice: Option<int>,
    carColor: Option<string>,
    seatingCapacity: Option<int>,
    carMileage: Option<int>,
    carTransmission: Option<string>,
    carDescription: Option<string>,
    emiCount: Option<int>,
    carsCount: Option<int>)

  /** Every required field is present. */
  predicate FormComplete(f: NewCarForm) {
    && f.modelName.Some? && f.engineType.Some? && f.carPrice.Some? && f.carColor.Some?
    && f.seatingCapacity.Some? && f.carMileage.Some? && f.carTransmission.Some?
    && f.carDescription.Some? && f.carsCount.Some?
  }

  /** The document `Car.create` builds from a complete form: fields renamed,
      text fields trimmed, images prefixed. */
  function CarOf(f: NewCarForm, files: seq<string>): (c: Car)
    requires FormComplete(f)
    ensures Trimmed(c)
    ensures c.ownerId == f.id && c.carImages == ImagePaths(files)
    ensures c.modelName == JsString.Trim(f.modelName.value) && c.description == JsString.Trim(f.carDescription.value)
    ensures c.price == f.carPrice.value && c.mileage == f.carMileage.value && c.seatingCapacity == f.seatingCapacity.value
    ensures c.engineType == f.engineType.value && c.color == f.carColor.value && c.transmissionType == f.carTransmission.value
    ensures c.emiPerMonth == f.emiCount && c.carsCount == f.carsCount.value
  {
    Car(f.id, JsString.Trim(f.modelName.value), f.engineType.value, f.carPrice.value, f.carColor.value,
        f.seatingCapacity.value, f.carMileage.value, f.carTransmission.value, ImagePaths(files),
        JsString.Trim(f.carDescription.value), f.emiCount, f.carsCount.value)
  }

  /**
   * `createCar`: more than four images answer 400 before the store is read;
   * an owner with five cars or more is refused with 400; a form that fails
   * the schema (a missing field included) answers 500; otherwise the car is
   * inserted and the answer is 201.
   */
  method CreateCar(db: Db, f: NewCarForm, files: seq<string>) returns (status: int, carId: Option<Id>)
    requires db.Valid()
    modifies db
    ensures db.Valid()
    ensures db.users == old(db.users) && db.bookings == old(db.bookings) && db.visits == old(db.visits)
    ensures
      if |files| > MaxImages then status == BAD_REQUEST && carId == None && db.cars == old(db.cars)
      else if |Scan(old(db.cars), OwnedBy(f.id), old(db.nextId))| >= MaxCarsPerOwner then
        status == BAD_REQUEST && carId == None && db.cars == old(db.cars)
      else if !FormComplete(f) || !CarValid(CarOf(f, files)) then
        status == SERVER_ERROR && carId == None && db.cars == old(db.cars)
      else
        && status == CREATED && carId == Some(old(db.nextId))
        && db.cars == old(db.cars)[old(db.nextId) := CarOf(f, files)]
    ensures if status == CREATED then db.nextId == old(db.nextId) + 1 else db.nextId == old(db.nextId)
  {
    if |files| > MaxImages {
      return BAD_REQUEST, None;
    }
    var mine := Scan(db.cars, OwnedBy(f.id), db.nextId);
    if |mine| >= MaxCarsPerOwner {
      return BAD_REQUEST, None;
    }
    if !FormComplete(f) || !CarValid(CarOf(f, files)) {
      return SERVER_ERROR, None;
    }
    OwnerCountIsScanLength(db.cars, f.id, db.nextId);
    var id := db.InsertCar(CarOf(f, files));
    return CREATED, Some(id);
  }

  /** Adding one car at a time, no owner ever holds more than five: the
      bound `createCar` checks is part of the store's invariant. */
  lemma OwnerNeverExceedsFive(db: Db, o: Id)
    requires db.Valid()
    ensures |Scan(db.cars, OwnedBy(o), db.nextId)| <= MaxCarsPerOwner
  {
    OwnerCountIsScanLength(db.cars, o, db.nextId);
  }

  /** `getMyCars`: the owner's cars in natural order; 404 when there are none. */
  function GetMyCars(cars: map<Id, Car>, o: Id, n: nat): (r: (int, seq<Id>))
    ensures r.0 == (if r.1 == [] then NOT_FOUND else OK)
    ensures forall k :: k in r.1 <==> k < n && k in cars && cars[k].ownerId == o
    ensures forall i, j :: 0 <= i < j < |r.1| ==> r.1[i] < r.1[j]
  {
    var mine := Scan(cars, OwnedBy(o), n);
    (if mine == [] then NOT_FOUND else OK, mine)
  }

  /** `car.price = carPrice` and the like, each only for a truthy value: a
      number field is text in a multipart body, so any one present is truthy,
      and a description is truthy when it is not empty. A new description
      goes through the `trim` setter; the images are replaced only when at
      least one is uploaded. */
  function Patch(c: Car, carPrice: Option<int>, carCount: Option<int>, carDescription: Option<string>, images: seq<string>): (r: Car)
    ensures r.price == (if carPrice.Some? then carPrice.value else c.price)
    ensures r.carsCount == (if carCount.Some? then carCount.value else c.carsCount)
    ensures r.description == (if Truthy(carDescription) then JsString.Trim(carDescription.value) else c.description)
    ensures r.carImages == (if images != [] then images else c.carImages)
    ensures r.(price := c.price, carsCount := c.carsCount, description := c.description, carImages := c.carImages) == c
  {
    var c1 := if carPrice.Some? then c.(price := carPrice.value) else c;
    var c2 := if carCount.Some? then c1.(carsCount := carCount.value) else c1;
    var c3 := if Truthy(carDescription) then c2.(description := JsString.Trim(carDescription.value)) else c2;
    if images != [] then c3.(carImages := images) else c3
  }

  /** A patch with nothing truthy in it leaves the car as it is. */
  lemma EmptyPatchChangesNothing(c: Car)
    ensures Patch(c, None, None, None, []) == c
  {
  }

  /**
   * `updateCar`: more than four images, or an unknown car, answer 400 with
   * no change; otherwise the patched car is saved when it validates (200)
   * and nothing changes when it does not (500).
   */
  method UpdateCar(db: Db, carId: Id, carPrice: Option<int>, carCount: Option<int>, carDescription: Option<string>, files: seq<string>)
    returns (status: int)
    requires db.Valid()
    modifies db
    ensures db.Valid()
    ensures db.users == old(db.users) && db.bookings == old(db.bookings) && db.visits == old(db.visits) && db.nextId == old(db.nextId)
    ensures
      if |files| > MaxImages || carId !in old(db.cars) then status == BAD_REQUEST && db.cars == old(db.cars)
      else
        var patched := Patch(old(db.cars)[carId], carPrice, carCount, carDescription, ImagePaths(files));
        if CarValid(patched) then status == OK && db.cars == old(db.cars)[carId := patched]
        else status == SERVER_ERROR && db.cars == old(db.cars)
  {
    var images := ImagePaths(files);
    if |images| > MaxImages {
      return BAD_REQUEST;
    }
    if carId !in db.cars {
      return BAD_REQUEST;
    }
    var car := db.cars[carId];
    var patched := Patch(car, carPrice, carCount, carDescription, images);
    var saved := db.SaveCar(carId, patched);
    status := if saved then OK else SERVER_ERROR;
  }

  /** `deleteCar`: 400 for an unknown car; otherwise exactly that car is
      removed, by anyone, and its bookings stay. */
  method DeleteCar(db: Db, id: Id) returns (status: int)
    requires db.Valid()
    modifies db
    ensures db.Valid()
    ensures db.users == old(db.users) && db.bookings == old(db.bookings) && db.visits == old(db.visits) && db.nextId == old(db.nextId)
    ensures id !in old(db.cars) ==> status == BAD_REQUEST && db.cars == old(db.cars)
    ensures id in old(db.cars) ==> status == OK && db.cars == old(db.cars) - {id}
  {
    if id !in db.cars {
      return BAD_REQUEST;
    }
    db.RemoveCar(id);
    status := OK;
  }

  /** One entry of `getAllShowrooms` and `searchForShowrooms`: an owner with
      the number of cars that name it as their owner. */
  datatype Showroom = Showroom(userId: Id, user: User, count: nat)

  /** The users `ids` annotated with `countDocuments({ ownerId })`. */
  function WithCounts(ids: seq<Id>, users: map<Id, User>, cars: map<Id, Car>, n: nat): (r: seq<Showroom>)
    requires forall i :: 0 <= i < |ids| ==> ids[i] in users
    ensures |r| == |ids|
    ensures forall i :: 0 <= i < |ids| ==>
      r[i] == Showroom(ids[i], users[ids[i]], |Scan(cars, OwnedBy(ids[i]), n)|)
    ensures forall k :: (exists i :: 0 <= i < |r| && r[i].userId == k) <==> k in ids
    ensures (forall i, j :: 0 <= i < j < |ids| ==> ids[i] < ids[j]) ==>
      forall i, j :: 0 <= i < j < |r| ==> r[i].userId < r[j].userId
  {
    seq(|ids|, i requires 0 <= i < |ids| => Showroom(ids[i], users[ids[i]], |Scan(cars, OwnedBy(ids[i]), n)|))
  }

  /** The users `User.find(filter)` returns, in natural order, each with a
      count of its cars. */
  function Showrooms(users: map<Id, User>, cars: map<Id, Car>, n: nat, keep: User -> bool): (r: seq<Showroom>)
    requires Bounded(users, n) && Bounded(cars, n)
    ensures forall k :: (exists i :: 0 <= i < |r| && r[i].userId == k) <==> k in users && keep(users[k])
    ensures forall i :: 0 <= i < |r| ==>
      r[i].user == users[r[i].userId] && r[i].count == |Scan(cars, OwnedBy(r[i].userId), n)|
    ensures forall i, j :: 0 <= i < j < |r| ==> r[i].userId < r[j].userId
  {
    var found := Scan(users, keep, n);
    WithCounts(found, users, cars, n)
  }

  /** `getAllShowrooms`: every Owner user in natural order, each with a count
      of its cars; always 200. */
  function GetAllShowrooms(users: map<Id, User>, cars: map<Id, Car>, n: nat): (r: (int, seq<Showroom>))
    requires Bounded(users, n) && Bounded(cars, n)
    ensures r.0 == OK
    ensures forall k :: (exists i :: 0 <= i < |r.1| && r.1[i].userId == k) <==> k in users && users[k].userType == Owner
    ensures forall i :: 0 <= i < |r.1| ==>
      r.1[i].user == users[r.1[i].userId] && r.1[i].count == |Scan(cars, OwnedBy(r.1[i].userId), n)|
    ensures forall i, j :: 0 <= i < j < |r.1| ==> r.1[i].userId < r.1[j].userId
  {
    (OK, Showrooms(users, cars, n, IsOwner()))
  }

  /** The count attached to an owner is the number of its cars, which the
      store keeps at five or fewer. */
  lemma ShowroomCountBounded(db: Db, i: nat)
    requires db.Valid()
    requires i < |GetAllShowrooms(db.users, db.cars, db.nextId).1|
    ensures GetAllShowrooms(db.users, db.cars, db.nextId).1[i].count <= MaxCarsPerOwner
  {
    OwnerCountIsScanLength(db.cars, GetAllShowrooms(db.users, db.cars, db.nextId).1[i].userId, db.nextId);
  }

  /** `s.charAt(0).toUpperCase() + s.slice(1)`. */
  function Capitalise(s: string): (r: string)
    ensures |r| == |s|
    ensures s != [] ==> r[0] == JsString.UpperAscii(s[0]) && r[1..] == s[1..]
  {
    if s == [] then [] else [JsString.UpperAscii(s[0])] + s[1..]
  }

  /** The location `searchForShowrooms` looks for: the last comma-separated
      piece of the search text (`split(",").pop()`, see
      `JsString.LastPieceIsAfterLast`), trimmed, with its first letter
      capitalised. */
  function SearchTerm(text: string): (r: string)
  {
    Capitalise(JsString.Trim(JsString.AfterLast(text, ',')))
  }

  /** Capitalising adds no character other than an upper-case letter. */
  lemma CapitaliseKeepsOut(s: string, c: char)
    requires c !in s && !('A' <= c <= 'Z')
    ensures c !in Capitalise(s)
  {
    var r := Capitalise(s);
    forall i | 0 <= i < |r| ensures r[i] != c {
      if i > 0 {
        assert r[i] == r[1..][i - 1] == s[1..][i - 1] == s[i];
      }
    }
  }

  /** Capitalising keeps a text trimmed. */
  lemma CapitaliseKeepsTrimmed(s: string)
    requires JsString.IsTrimmed(s)
    ensures JsString.IsTrimmed(Capitalise(s))
  {
    var r := Capitalise(s);
    if |r| > 1 {
      assert r[|r| - 1] == r[1..][|r| - 2] == s[1..][|s| - 2] == s[|s| - 1];
    }
  }

  /** The search term holds no comma, no surrounding white space, no leading
      lower-case letter, and is no longer than the text. */
  lemma SearchTermShape(text: string)
    ensures ',' !in SearchTerm(text)
    ensures SearchTerm(text) != [] ==> !('a' <= SearchTerm(text)[0] <= 'z')
    ensures JsString.IsTrimmed(SearchTerm(text))
    ensures |SearchTerm(text)| <= |text|
  {
    var last := JsString.AfterLast(text, ',');
    var t := JsString.Trim(last);
    JsString.TrimKeepsOut(last, ',');
    CapitaliseKeepsOut(t, ',');
    CapitaliseKeepsTrimmed(t);
  }

  /** A search text without commas is searched for as itself, trimmed and
      capitalised; a text ending in a comma searches for the empty term,
      which every set location contains. */
  lemma SearchTermCases(text: string)
    ensures ',' !in text ==> SearchTerm(text) == Capitalise(JsString.Trim(text))
    ensures text != [] && text[|text| - 1] == ',' ==> SearchTerm(text) == []
  {
    JsString.AfterLastIsSuffix(text, ',');
  }

  /** The empty term matches every location. */
  lemma EmptyTermMatchesAll(location: string)
    ensures JsString.ContainsIgnoringCase(location, [])
  {
    assert JsString.MatchesAt(location, [], 0);
  }

  /** The search of `searchForShowrooms` for a given term: the users whose
      showroom location contains `term` up to case, each with a count of its
      cars; 404 when there are none. */
  function SearchLocation(users: map<Id, User>, cars: map<Id, Car>, n: nat, term: string): (r: (int, seq<Showroom>))
    requires Bounded(users, n) && Bounded(cars, n)
    ensures r.0 == (if r.1 == [] then NOT_FOUND else OK)
    ensures forall k :: (exists i :: 0 <= i < |r.1| && r.1[i].userId == k) <==>
      k in users && InLocation(users[k], term)
    ensures forall i :: 0 <= i < |r.1| ==>
      r.1[i].user == users[r.1[i].userId] && r.1[i].count == |Scan(cars, OwnedBy(r.1[i].userId), n)|
    ensures forall i, j :: 0 <= i < j < |r.1| ==> r.1[i].userId < r.1[j].userId
  {
    var rooms := Showrooms(users, cars, n, LocatedAt(term));
    (if rooms == [] then NOT_FOUND else OK, rooms)
  }

  /** `searchForShowrooms`: the search for the location term of `text`,
      which lists exactly the users whose location contains that term. */
  function SearchForShowrooms(users: map<Id, User>, cars: map<Id, Car>, n: nat, text: string): (r: (int, seq<Showroom>))
    requires Bounded(users, n) && Bounded(cars, n)
    ensures r.0 == (if r.1 == [] then NOT_FOUND else OK)
    ensures forall k :: (exists i :: 0 <= i < |r.1| && r.1[i].userId == k) <==>
      k in users && InLocation(users[k], SearchTerm(text))
    ensures forall i, j :: 0 <= i < j < |r.1| ==> r.1[i].userId < r.1[j].userId
  {
    SearchLocation(users, cars, n, SearchTerm(text))
  }

  /** The user has a showroom location that contains `term` up to case. */
  predicate InLocation(u: User, term: string) {
    u.showroomDetails.location.Some? && JsString.ContainsIgnoringCase(u.showroomDetails.location.value, term)
  }

  /** The filter `{ "showroomDetails.location": { $regex: term, "i" } }`. */
  function LocatedAt(term: string): User -> bool {
    (u: User) => InLocation(u, term)
  }

  /** `searchCarData`: the car with id `carId`; 404 when there is none. */
  function SearchCarData(cars: map<Id, Car>, carId: Id): (r: (int, Option<Car>))
    ensures r.0 == OK <==> carId in cars
    ensures r.0 != OK ==> r.0 == NOT_FOUND && r.1 == None
    ensures r.0 == OK ==> r.1 == Some(cars[carId])
  {
    if carId in cars then (OK, Some(cars[carId])) else (NOT_FOUND, None)
  }

  /** `fetchPendingBookingUserData`: the user with id `id`; 404 when there is
      none. */
  function FetchUserData(users: map<Id, User>, id: Id): (r: (int, Option<User>))
    ensures r.0 == OK <==> id in users
    ensures r.0 != OK ==> r.0 == NOT_FOUND && r.1 == None
    ensures r.0 == OK ==> r.1 == Some(users[id])
  {
    if id in users then (OK, Some(users[id])) else (NOT_FOUND, None)
  }
}
