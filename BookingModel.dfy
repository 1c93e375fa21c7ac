/**
 * The CarBookings document (models/CarBooking.js): a customer's request for
 * one car of one owner, its status lifecycle, the owner's reply, the schema
 * validators, the pre-save hook that fills in the expiry and reply dates,
 * the name virtuals, and the unique index on (customerId, carId).
 */
module BookingModel {
  import opened Common
  import opened UserModel

  /** The `bookingStatus` enum. */
  datatype BookingStatus = Pending | Accepted | Rejected

  datatype Booking = Booking(
    customerId: Id,
    carId: Id,
    ownerId: Id,
    bookingText: string,
    ownerReplyToBooking: Option<string>,
    bookingStatus: BookingStatus,
    bookingDate: Time,
    expiryDate: Option<Time>,
    ownerReplyToBookingDate: Option<Time>,
    whyRejected: Option<string>)

  /** The fields `SaveCarBooking` creates a booking from; a field missing
      from the request is `None`. */
  datatype BookingRequest = BookingRequest(customerId: Id, carId: Option<Id>, ownerId: Option<Id>, bookingText: Option<string>)

  /** One entry of a validation error's `errors` list. */
  datatype BookingError = CarIdRequired | OwnerIdRequired | TextRequired | TextTooShort | TextTooLong | ReplyNotAllowed

  const MinTextLength: nat := 10
  const MaxTextLength: nat := 500

  /** Seven days in milliseconds, the default lifetime of a booking. */
  const Week: int := 7 * 24 * 60 * 60 * 1000

  /** The first failing validator of the `bookingText` path (`required`,
      then `minlength`, then `maxlength`), if any. */
  function TextError(t: Option<string>): (r: Option<BookingError>)
    ensures r == None <==> t.Some? && MinTextLength <= |t.value| <= MaxTextLength
    ensures r == Some(TextRequired) <==> t == None || t == Some("")
  {
    match t
    case None => Some(TextRequired)
    case Some(s) =>
      if s == "" then Some(TextRequired)
      else if |s| < MinTextLength then Some(TextTooShort)
      else if |s| > MaxTextLength then Some(TextTooLong)
      else None
  }

  /** The reply validator: it runs only on a reply that is set, and admits one
      only once the booking is Accepted or Rejected. */
  function ReplyError(b: Booking): (r: Option<BookingError>)
    ensures r == None <==> (b.ownerReplyToBooking.Some? ==> b.bookingStatus.Accepted? || b.bookingStatus.Rejected?)
  {
    if b.ownerReplyToBooking.Some? && b.bookingStatus.Pending? then Some(ReplyNotAllowed) else None
  }

  function AsList(e: Option<BookingError>): seq<BookingError> {
    if e.Some? then [e.value] else []
  }

  /** The validation errors of a booking document, in schema order. */
  function BookingErrors(b: Booking): (r: seq<BookingError>)
    ensures r == [] <==> MinTextLength <= |b.bookingText| <= MaxTextLength
                         && (b.ownerReplyToBooking.Some? ==> b.bookingStatus != Pending)
  {
    AsList(TextError(Some(b.bookingText))) + AsList(ReplyError(b))
  }

  /** The validation errors of the document `CarBookings.create` builds from
      a request, in schema order: the required references, then the text. */
  function RequestErrors(q: BookingRequest): (r: seq<BookingError>)
    ensures r == [] <==> q.carId.Some? && q.ownerId.Some? && TextError(q.bookingText) == None
    ensures CarIdRequired in r <==> q.carId == None
    ensures OwnerIdRequired in r <==> q.ownerId == None
  {
    (if q.carId == None then [CarIdRequired] else [])
    + (if q.ownerId == None then [OwnerIdRequired] else [])
    + AsList(TextError(q.bookingText))
  }

  /** The document a request creates, with the schema defaults: status
      Pending, booked now, no reply, expiry not yet set. */
  function NewBooking(q: BookingRequest, now: Time): (b: Booking)
    requires RequestErrors(q) == []
    ensures BookingErrors(b) == []
    ensures b.bookingStatus == Pending && b.ownerReplyToBooking == None
    ensures b.customerId == q.customerId && b.carId == q.carId.value && b.ownerId == q.ownerId.value
    ensures Some(b.bookingText) == q.bookingText
  {
    Booking(q.customerId, q.carId.value, q.ownerId.value, q.bookingText.value, None, Pending, now, None, None, None)
  }

  /** The pre-save hook: an unset expiry becomes `now` plus seven days, and an
      unset reply date becomes `now` when the reply was modified. */
  function PreSave(b: Booking, replyModified: bool, now: Time): (r: Booking)
    ensures r.expiryDate.Some?
    ensures b.expiryDate.Some? ==> r.expiryDate == b.expiryDate
    ensures b.expiryDate.None? ==> r.expiryDate == Some(now + Week)
    ensures b.ownerReplyToBookingDate.Some? ==> r.ownerReplyToBookingDate == b.ownerReplyToBookingDate
    ensures r.ownerReplyToBookingDate.Some? <==> b.ownerReplyToBookingDate.Some? || replyModified
    ensures replyModified && b.ownerReplyToBookingDate.None? ==> r.ownerReplyToBookingDate == Some(now)
    ensures r.(expiryDate := b.expiryDate, ownerReplyToBookingDate := b.ownerReplyToBookingDate) == b
  {
    var withExpiry := if b.expiryDate.None? then b.(expiryDate := Some(now + Week)) else b;
    if replyModified && withExpiry.ownerReplyToBookingDate.None? then withExpiry.(ownerReplyToBookingDate := Some(now))
    else withExpiry
  }

  /** Saving again without modifying the reply changes nothing, whenever it
      happens: the expiry never moves once it is set. */
  lemma PreSaveStable(b: Booking, replyModified: bool, now: Time, later: Time)
    ensures PreSave(PreSave(b, replyModified, now), false, later) == PreSave(b, replyModified, now)
  {
  }

  /** A name part of a virtual: a missing or empty part shows as "". */
  function NamePart(s: Option<string>): string {
    if s.Some? then s.value else ""
  }

  /** The `customerName` and `ownerName` virtuals over the referenced user
      (`None` when the reference is not populated or the user is missing). */
  function VirtualName(u: Option<User>): (r: string)
    ensures u.None? ==> r == " "
    ensures u.Some? ==> r == u.value.firstName + " " + NamePart(u.value.lastName)
  {
    var first := if u.Some? then u.value.firstName else "";
    var last := if u.Some? then NamePart(u.value.lastName) else "";
    first + " " + last
  }

  /** The unique index on (customerId, carId): at most one booking per pair. */
  ghost predicate UniquePairs(m: map<Id, Booking>) {
    forall i, j :: i in m && j in m && m[i].customerId == m[j].customerId && m[i].carId == m[j].carId ==> i == j
  }

  /** True when a booking for the pair is already stored. */
  predicate PairTaken(m: map<Id, Booking>, customerId: Id, carId: Id) {
    exists k | k in m :: m[k].customerId == customerId && m[k].carId == carId
  }

  /** A stored booking: valid and saved at least once, so its expiry is set. */
  predicate StoredBooking(b: Booking) {
    BookingErrors(b) == [] && b.expiryDate.Some?
  }

  /** Deciding a stored booking, with a reply dated now, keeps it storable,
      and the pre-save hook then changes nothing. */
  lemma DecidedStaysStored(b: Booking, s: BookingStatus, reply: string, now: Time)
    requires StoredBooking(b) && s != Pending
    ensures var d := b.(bookingStatus := s, ownerReplyToBooking := Some(reply), ownerReplyToBookingDate := Some(now));
      StoredBooking(d) && PreSave(d, true, now) == d
  {
  }

  /** Invariant of the CarBookings collection. */
  ghost predicate BookingsValid(m: map<Id, Booking>) {
    (forall k :: k in m ==> StoredBooking(m[k])) && UniquePairs(m)
  }
}
