/**
 * The recently-visited-showroom handlers (controllers/RecentlyVisitedShowroom.js).
 * The customer and owner ids arrive in the query string or the body and are
 * taken as given.
 */
module VisitController {
  import opened Common
  import opened UserModel
  import opened VisitModel
  import opened Store

  /** `findOne({ customerId })`: the first history of the customer in
      natural order, if there is one. With one history per customer it is
      the only one. */
  function FindHistory(visits: map<Id, VisitRecord>, c: Id, n: nat): (r: Option<Id>)
    requires Bounded(visits, n)
    ensures r.None? <==> forall k :: k in visits ==> visits[k].customerId != c
    ensures r.Some? ==> r.value in visits && visits[r.value].customerId == c
  {
    var found := Scan(visits, OfCustomer(c), n);
    if found == [] then
      assert forall k :: k in visits && visits[k].customerId == c ==> k in found;
      None
    else Some(found[0])
  }

  /**
   * `newVisit`: a customer with a history gets `addShowroom(o)` on it, and
   * the answer carries the list as it was read BEFORE the update; a customer
   * without one gets a new history holding one visit to `o`. Both answer 200.
   */
  method NewVisit(db: Db, c: Id, o: Id, now: Time) returns (status: int, visited: seq<Visit>)
    requires db.Valid()
    modifies db
    ensures db.Valid()
    ensures status == OK
    ensures db.users == old(db.users) && db.cars == old(db.cars) && db.bookings == old(db.bookings)
    ensures var h := FindHistory(old(db.visits), c, old(db.nextId));
      if h.Some? then
        && visited == old(db.visits)[h.value].visitedShowrooms
        && db.visits == old(db.visits)[h.value := VisitRecord(c, Revisit(visited, o, now))]
        && db.nextId == old(db.nextId)
      else
        && visited == [Visit(o, now)]
        && db.visits == old(db.visits)[old(db.nextId) := VisitRecord(c, visited)]
        && db.nextId == old(db.nextId) + 1
  {
    var h := FindHistory(db.visits, c, db.nextId);
    if h.Some? {
      visited := db.visits[h.value].visitedShowrooms;
      var ok := db.AddShowroom(h.value, o, now);
      status := if ok then OK else SERVER_ERROR;
    } else {
      visited := [Visit(o, now)];
      var _ := db.InsertVisit(VisitRecord(c, visited));
      status := OK;
    }
  }

  /** One entry of a populated history: the visit and the owner it refers
      to, `None` when that user no longer exists. */
  datatype PopulatedVisit = PopulatedVisit(visit: Visit, owner: Option<User>)

  /** `populate("visitedShowrooms.ownerId")` over a history. */
  function Populate(s: seq<Visit>, users: map<Id, User>): (r: seq<PopulatedVisit>)
    ensures |r| == |s|
    ensures forall i :: 0 <= i < |s| ==> r[i] == PopulatedVisit(s[i], Lookup(users, s[i].ownerId))
  {
    seq(|s|, i requires 0 <= i < |s| => PopulatedVisit(s[i], Lookup(users, s[i].ownerId)))
  }

  /** `getMyAllVisits`: the customer's history with every owner populated,
      or null when the customer has none. It always answers 200 and reads
      only. */
  function GetMyAllVisits(visits: map<Id, VisitRecord>, users: map<Id, User>, c: Id, n: nat): (r: (int, Option<seq<PopulatedVisit>>))
    requires Bounded(visits, n)
    ensures r.0 == OK
    ensures r.1.None? <==> forall k :: k in visits ==> visits[k].customerId != c
    ensures r.1.Some? ==>
      exists k :: k in visits && visits[k].customerId == c && r.1.value == Populate(visits[k].visitedShowrooms, users)
  {
    var h := FindHistory(visits, c, n);
    if h.None? then (OK, None) else (OK, Some(Populate(visits[h.value].visitedShowrooms, users)))
  }

  /** Every owner a history refers to still exists; otherwise `populate`
      leaves a null that the delete filter dereferences. */
  predicate OwnersPresent(s: seq<Visit>, users: map<Id, User>) {
    forall i :: 0 <= i < |s| ==> s[i].ownerId in users
  }

  /**
   * `deleteMyOneVisit`: 404 when the customer has no history; 500, with no
   * change, when an entry's owner is gone (the populated null has no
   * `_id`); otherwise every visit to `o` is removed, the rest kept in order,
   * and the answer is 200 with the new list.
   */
  method DeleteMyOneVisit(db: Db, c: Id, o: Id) returns (status: int, visited: seq<Visit>)
    requires db.Valid()
    modifies db
    ensures db.Valid()
    ensures db.users == old(db.users) && db.cars == old(db.cars) && db.bookings == old(db.bookings) && db.nextId == old(db.nextId)
    ensures var h := FindHistory(old(db.visits), c, old(db.nextId));
      && (h.None? ==> status == NOT_FOUND && db.visits == old(db.visits))
      && (h.Some? && !OwnersPresent(old(db.visits)[h.value].visitedShowrooms, db.users) ==>
            status == SERVER_ERROR && db.visits == old(db.visits))
      && (h.Some? && OwnersPresent(old(db.visits)[h.value].visitedShowrooms, db.users) ==>
            && status == OK
            && visited == WithoutOwner(old(db.visits)[h.value].visitedShowrooms, o)
            && db.visits == old(db.visits)[h.value := VisitRecord(c, visited)])
  {
    visited := [];
    var h := FindHistory(db.visits, c, db.nextId);
    if h.None? {
      return NOT_FOUND, visited;
    }
    var s := db.visits[h.value].visitedShowrooms;
    if !OwnersPresent(s, db.users) {
      return SERVER_ERROR, visited;
    }
    visited := WithoutOwner(s, o);
    SubsequenceKeepsUnique(visited, s);
    db.SetVisits(h.value, visited);
    status := OK;
  }
}
