/**
 * The RecentlyVisitedShowroom document (models/RecentlyVisitedShowroom.js):
 * one customer's history of visited showroom owners, most recent first, and
 * the list rule of its `addShowroom` method — drop the owner's old entry,
 * put a fresh one in front, keep at most five.
 */
module VisitModel {
  import opened Common

  /** One entry of `visitedShowrooms`. `visitedAt` defaults to the time the
      entry is created. */
  datatype Visit = Visit(ownerId: Id, visitedAt: Time)

  /** A RecentlyVisitedShowroom document. */
  datatype VisitRecord = VisitRecord(customerId: Id, visitedShowrooms: seq<Visit>)

  /** `filtered.slice(0, 5)`: the history keeps at most five entries. */
  const MaxVisits: nat := 5

  /** How many entries of `s` are visits to owner `o`. */
  function Occurrences(s: seq<Visit>, o: Id): (n: nat)
    ensures n <= |s|
  {
    if s == [] then 0 else (if s[0].ownerId == o then 1 else 0) + Occurrences(s[1..], o)
  }

  /** No owner appears twice in `s`. */
  predicate UniqueOwners(s: seq<Visit>) {
    forall i, j :: 0 <= i < j < |s| ==> s[i].ownerId != s[j].ownerId
  }

  /** `r` is `s` with some entries left out and the rest in their order. */
  predicate IsSubsequence(r: seq<Visit>, s: seq<Visit>) {
    if r == [] then true
    else if s == [] then false
    else if r[0] == s[0] then IsSubsequence(r[1..], s[1..])
    else IsSubsequence(r, s[1..])
  }

  /** `s.filter(visit => visit.ownerId !== o)`. The three facts below pin
      the result down: the entries for every other owner, in their order. */
  function WithoutOwner(s: seq<Visit>, o: Id): (r: seq<Visit>)
    ensures |r| == |s| - Occurrences(s, o)
    ensures forall i :: 0 <= i < |r| ==> r[i].ownerId != o
    ensures IsSubsequence(r, s)
  {
    if s == [] then []
    else if s[0].ownerId == o then WithoutOwner(s[1..], o)
    else [s[0]] + WithoutOwner(s[1..], o)
  }

  /** An owner occurs nowhere exactly when it is counted zero times. */
  lemma {:induction false} NoOccurrences(s: seq<Visit>, o: Id)
    ensures Occurrences(s, o) == 0 <==> forall i :: 0 <= i < |s| ==> s[i].ownerId != o
  {
    if s != [] {
      NoOccurrences(s[1..], o);
      assert forall i :: 1 <= i < |s| ==> s[i] == s[1..][i - 1];
    }
  }

  /** A list without duplicate owners counts each owner at most once. */
  lemma {:induction false} UniqueOccurrences(s: seq<Visit>, o: Id)
    requires UniqueOwners(s)
    ensures Occurrences(s, o) <= 1
  {
    if s != [] {
      assert UniqueOwners(s[1..]) by {
        forall i, j | 0 <= i < j < |s| - 1 ensures s[1..][i].ownerId != s[1..][j].ownerId {
          assert s[1..][i] == s[i + 1] && s[1..][j] == s[j + 1];
        }
      }
      UniqueOccurrences(s[1..], o);
      if s[0].ownerId == o {
        NoOccurrences(s[1..], o);
        forall i | 0 <= i < |s| - 1 ensures s[1..][i].ownerId != o {
          assert s[1..][i] == s[i + 1];
        }
      }
    }
  }

  /** Removing an owner that is absent changes nothing. */
  lemma {:induction false} WithoutAbsentOwner(s: seq<Visit>, o: Id)
    requires Occurrences(s, o) == 0
    ensures WithoutOwner(s, o) == s
  {
    if s != [] {
      WithoutAbsentOwner(s[1..], o);
    }
  }

  /** Removing an owner twice removes no more than once: deleting a visit
      again is a no-op. */
  lemma WithoutOwnerIdempotent(s: seq<Visit>, o: Id)
    ensures WithoutOwner(WithoutOwner(s, o), o) == WithoutOwner(s, o)
  {
    var r := WithoutOwner(s, o);
    NoOccurrences(r, o);
    WithoutAbsentOwner(r, o);
  }

  /** An order-preserving selection of a list without duplicate owners has
      none either. */
  lemma {:induction false} SubsequenceKeepsUnique(r: seq<Visit>, s: seq<Visit>)
    requires IsSubsequence(r, s) && UniqueOwners(s)
    ensures UniqueOwners(r)
    ensures forall i :: 0 <= i < |r| ==> r[i] in s
  {
    if r != [] && s != [] {
      assert UniqueOwners(s[1..]) by {
        forall i, j | 0 <= i < j < |s| - 1 ensures s[1..][i].ownerId != s[1..][j].ownerId {
          assert s[1..][i] == s[i + 1] && s[1..][j] == s[j + 1];
        }
      }
      if r[0] == s[0] {
        SubsequenceKeepsUnique(r[1..], s[1..]);
        forall j | 0 < j < |r| ensures r[0].ownerId != r[j].ownerId {
          assert r[j] == r[1..][j - 1];
          var k :| 0 <= k < |s| - 1 && s[1..][k] == r[j];
          assert s[k + 1] == r[j];
        }
        forall i | 0 <= i < |r| ensures r[i] in s {
          if i > 0 {
            assert r[i] == r[1..][i - 1];
          }
        }
      } else {
        SubsequenceKeepsUnique(r, s[1..]);
      }
    }
  }

  /** The list `addShowroom(o)` saves: any earlier visit to `o` is dropped,
      a new visit to `o` at `now` goes first, and the list is cut to five. */
  function Revisit(s: seq<Visit>, o: Id, now: Time): (r: seq<Visit>)
    ensures 1 <= |r| <= MaxVisits
    ensures |r| == (if 1 + |s| - Occurrences(s, o) <= MaxVisits then 1 + |s| - Occurrences(s, o) else MaxVisits)
    ensures r[0] == Visit(o, now)
    ensures Occurrences(r, o) == 1
    ensures r[1..] == WithoutOwner(s, o)[..|r| - 1]
  {
    var filtered := [Visit(o, now)] + WithoutOwner(s, o);
    var r := filtered[..if |filtered| <= MaxVisits then |filtered| else MaxVisits];
    assert r[1..] == WithoutOwner(s, o)[..|r| - 1];
    NoOccurrences(WithoutOwner(s, o), o);
    NoOccurrences(r[1..], o);
    r
  }

  /** Revisiting an owner already in a duplicate-free history keeps its
      length: the entry moves to the front. */
  lemma RevisitKeepsLength(s: seq<Visit>, o: Id, now: Time)
    requires UniqueOwners(s) && |s| <= MaxVisits
    requires Occurrences(s, o) > 0
    ensures |Revisit(s, o, now)| == |s|
  {
    UniqueOccurrences(s, o);
  }

  /** Visiting a new owner with a full history evicts the last, oldest entry. */
  lemma RevisitEvictsOldest(s: seq<Visit>, o: Id, now: Time)
    requires |s| == MaxVisits && Occurrences(s, o) == 0
    ensures Revisit(s, o, now) == [Visit(o, now)] + s[..MaxVisits - 1]
  {
    WithoutAbsentOwner(s, o);
  }

  /** A history without duplicate owners still has none after a visit. */
  lemma RevisitKeepsUnique(s: seq<Visit>, o: Id, now: Time)
    requires UniqueOwners(s)
    ensures UniqueOwners(Revisit(s, o, now))
  {
    var w := WithoutOwner(s, o);
    var r := Revisit(s, o, now);
    SubsequenceKeepsUnique(w, s);
    forall i, j | 0 <= i < j < |r| ensures r[i].ownerId != r[j].ownerId {
      assert r[j] == w[j - 1];
      if i > 0 {
        assert r[i] == w[i - 1];
      }
    }
  }

  /** The invariant every stored history keeps: at most five entries, no
      owner twice. */
  predicate HistoryValid(s: seq<Visit>) {
    |s| <= MaxVisits && UniqueOwners(s)
  }

  /** Invariant of the RecentlyVisitedShowroom collection: every history is
      valid, and no customer has two documents. */
  ghost predicate VisitsValid(m: map<Id, VisitRecord>) {
    && (forall k :: k in m ==> HistoryValid(m[k].visitedShowrooms))
    && (forall i, j :: i in m && j in m && m[i].customerId == m[j].customerId ==> i == j)
  }

  /** The filter of `RecentlyVisitedShowroom.findOne({ customerId })`. */
  function OfCustomer(c: Id): VisitRecord -> bool {
    (r: VisitRecord) => r.customerId == c
  }
}
