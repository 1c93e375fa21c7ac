/**
 * Vocabulary shared by every part of the showroom backend: document
 * identifiers, timestamps, optional values, the HTTP status codes the
 * controllers answer with, and the natural-order scan that stands for a
 * collection query (`Model.find(filter)`).
 */
module Common {

  /** A document identifier. The store hands identifiers out in increasing
      order and never reuses one, so ascending order is insertion order. */
  type Id = nat

  /** Milliseconds since the epoch, the unit of `Date.now()`. */
  type Time = int

  datatype Option<+T> = None | Some(value: T)

  // HTTP status codes.
  const OK: int := 200
  const CREATED: int := 201
  const BAD_REQUEST: int := 400
  const UNAUTHORIZED: int := 401
  const FORBIDDEN: int := 403
  const NOT_FOUND: int := 404
  const SERVER_ERROR: int := 500

  /** A text request field JavaScript treats as true: present and not empty. */
  predicate Truthy(s: Option<string>) {
    s.Some? && s.value != ""
  }

  /** `findById`: the document stored under `k`, if any. */
  function Lookup<V>(m: map<Id, V>, k: Id): (r: Option<V>)
    ensures r.Some? <==> k in m
    ensures r.Some? ==> r.value == m[k]
  {
    if k in m then Some(m[k]) else None
  }

  /** Every key of `m` is below `n`, the next identifier to hand out. */
  ghost predicate Bounded<V>(m: map<Id, V>, n: nat) {
    forall k :: k in m ==> k < n
  }

  /** The identifiers below `n` whose documents satisfy `keep`, in ascending
      order: what a `find` with that filter returns in natural order. */
  function Scan<V>(m: map<Id, V>, keep: V -> bool, n: nat): (r: seq<Id>)
    ensures forall i :: 0 <= i < |r| ==> r[i] < n && r[i] in m && keep(m[r[i]])
    ensures forall k :: k < n && k in m && keep(m[k]) ==> k in r
    ensures forall i, j :: 0 <= i < j < |r| ==> r[i] < r[j]
  {
    if n == 0 then []
    else Scan(m, keep, n - 1) + (if n - 1 in m && keep(m[n - 1]) then [n - 1] else [])
  }

  /** A scan sees only the documents below its bound. */
  lemma {:induction false} ScanAgree<V>(m1: map<Id, V>, m2: map<Id, V>, keep: V -> bool, n: nat)
    requires forall k :: k < n ==> (k in m1 <==> k in m2)
    requires forall k :: k < n && k in m1 ==> keep(m1[k]) == keep(m2[k])
    ensures Scan(m1, keep, n) == Scan(m2, keep, n)
  {
    if n > 0 {
      ScanAgree(m1, m2, keep, n - 1);
    }
  }

  /** Replacing a document by one the filter judges alike changes no scan. */
  lemma ScanUpdate<V>(m: map<Id, V>, keep: V -> bool, n: nat, k: Id, v: V)
    requires k in m && keep(m[k]) == keep(v)
    ensures Scan(m[k := v], keep, n) == Scan(m, keep, n)
  {
    ScanAgree(m[k := v], m, keep, n);
  }
}
