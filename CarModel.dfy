/**
 * The Car document (models/Car.js): one listing of an owner's showroom,
 * with the schema's enums, ranges, the `arrayLimit` image validator, and
 * the `trim` setters on `modelName` and `description`. Numbers are whole
 * numbers here.
 */
module CarModel {
  import opened Common
  import JsString

  const EngineTypes: seq<string> := ["Petrol", "Diesel", "Electric", "Hybrid"]
  const Colors: seq<string> := ["Red", "Blue", "White", "Black"]
  const TransmissionTypes: seq<string> := ["Automatic", "Manual"]

  /** The largest number of images a car may hold. */
  const MaxImages: nat := 4

  /** The number of cars `createCar` lets one owner hold. */
  const MaxCarsPerOwner: nat := 5

  datatype Car = Car(
    ownerId: Id,
    modelName: string,
    engineType: string,
    price: int,
    color: string,
    seatingCapacity: int,
    mileage: int,
    transmissionType: string,
    carImages: seq<string>,
    description: string,
    emiPerMonth: Option<int>,
    carsCount: int)

  /** `arrayLimit`: between one and four images. */
  predicate ArrayLimit(images: seq<string>) {
    1 <= |images| <= MaxImages
  }

  /** The schema validators on a car document whose required fields are set. */
  predicate CarValid(c: Car) {
    && c.modelName != ""
    && c.engineType in EngineTypes
    && c.price >= 0
    && c.color in Colors
    && 2 <= c.seatingCapacity <= 6
    && c.mileage >= 0
    && c.transmissionType in TransmissionTypes
    && ArrayLimit(c.carImages)
    && c.description != ""
    && (c.emiPerMonth.Some? ==> c.emiPerMonth.value >= 0)
    && c.carsCount >= 1
  }

  /** The text fields went through the `trim` setter. */
  predicate Trimmed(c: Car) {
    JsString.IsTrimmed(c.modelName) && JsString.IsTrimmed(c.description)
  }

  /** A stored car: valid, with its text fields trimmed. */
  predicate StoredCar(c: Car) {
    CarValid(c) && Trimmed(c)
  }

  /** A valid car has at least one unit, and taking one away still
      validates exactly when more than one was left: a save that would bring
      the count to zero fails. */
  lemma StoredCarHasUnits(c: Car)
    requires CarValid(c)
    ensures c.carsCount >= 1
    ensures CarValid(c.(carsCount := c.carsCount - 1)) <==> c.carsCount > 1
  {
  }

  /** The filter of `Car.find({ ownerId })` and `Car.countDocuments({ ownerId })`. */
  function OwnedBy(o: Id): Car -> bool {
    (c: Car) => c.ownerId == o
  }

  /** The number of cars of owner `o` stored under ids below `n`. */
  function OwnerCount(m: map<Id, Car>, o: Id, n: nat): nat {
    if n == 0 then 0
    else OwnerCount(m, o, n - 1) + (if n - 1 in m && m[n - 1].ownerId == o then 1 else 0)
  }

  /** `Car.find({ ownerId }).length` is the owner's count. */
  lemma {:induction false} OwnerCountIsScanLength(m: map<Id, Car>, o: Id, n: nat)
    ensures |Scan(m, OwnedBy(o), n)| == OwnerCount(m, o, n)
  {
    if n > 0 {
      OwnerCountIsScanLength(m, o, n - 1);
    }
  }

  /** Counts see only the cars below their bound, and only their owners. */
  lemma {:induction false} OwnerCountAgree(m1: map<Id, Car>, m2: map<Id, Car>, o: Id, n: nat)
    requires forall k :: k < n ==> (k in m1 <==> k in m2)
    requires forall k :: k < n && k in m1 ==> m1[k].ownerId == m2[k].ownerId
    ensures OwnerCount(m1, o, n) == OwnerCount(m2, o, n)
  {
    if n > 0 {
      OwnerCountAgree(m1, m2, o, n - 1);
    }
  }

  /** A car inserted under the next id adds one to its owner's count only. */
  lemma OwnerCountInsert(m: map<Id, Car>, o: Id, n: nat, c: Car)
    requires Bounded(m, n)
    ensures OwnerCount(m[n := c], o, n + 1) == OwnerCount(m, o, n) + (if c.ownerId == o then 1 else 0)
  {
    OwnerCountAgree(m[n := c], m, o, n);
  }

  /** Deleting a car never raises a count. */
  lemma {:induction false} OwnerCountShrink(m: map<Id, Car>, o: Id, n: nat, k: Id)
    ensures OwnerCount(m - {k}, o, n) <= OwnerCount(m, o, n)
  {
    if n > 0 {
      OwnerCountShrink(m, o, n - 1, k);
    }
  }

  /** Invariant of the Car collection for identifiers below `n`: every car
      stored is valid and no owner holds more than five. */
  ghost predicate CarsValid(m: map<Id, Car>, n: nat) {
    && (forall k :: k in m ==> StoredCar(m[k]))
    && (forall o: Id :: OwnerCount(m, o, n) <= MaxCarsPerOwner)
  }
}
