# BookCars server — a verified Dafny model

This project models the request handlers and document schemas of the BookCars
showroom backend, an Express and Mongoose service. Showroom **owners** list
**cars**. **Customers** send **bookings** for a car, which the owner accepts or
rejects. Each customer keeps a **recently visited showrooms** history: at most
five owners, most recent first, none twice.

The database is one class, `Store.Db`. It holds the four collections (users,
cars, bookings, visit histories) as maps from ids to documents, and the next id
to hand out. Ids are handed out in increasing order, so ascending id order is
the natural order in which `find` returns documents. `Common.Scan` stands for
`find`, and `findOne` is the first id of a scan.

Every write keeps `Db.Valid()`, which contains:

- the schema validators of every stored document;
- the unique indexes: user email, and the booking pair (customer, car);
- one history per customer;
- the five-cars-per-owner bound.

A Mongoose `save` is modelled as validate-then-commit. A document that fails
its validators is not written. The handler then answers 500 from its `catch`,
except `SaveCarBooking`, which answers 400 with the validators' messages
(controllers/CarBooking.js:30-36).

The modules follow the source:

| module | models |
|---|---|
| `UserModel`, `CarModel`, `BookingModel`, `VisitModel` | the four schemas: validators, defaults, pre-save hooks, virtuals and the `addShowroom` list rule |
| `UserController`, `CarController`, `BookingController`, `VisitController` | the handlers of each controller file |
| `Store` | the collections and their invariant |
| `Common` | ids, status codes, `Scan` |
| `JsString` | `trim`, `split`, ASCII case mapping and a case-insensitive substring test |

The store primitives (create, save and delete of each collection, and
`addShowroom`) are methods of `Db`. The handlers that change the store are
module-level methods of the controller modules that take the `Db` and call
those primitives. Their `ensures` state the status code and the whole new
state: every collection and the next id. Read-only handlers are functions or
methods that change nothing.

Inputs are modelled as follows:

- `now` is a parameter.
- The salt bcrypt would draw is a parameter.
- The caller id that the token middleware supplies is a parameter.
- Uploaded files are given by their stored file names.
- A request field that is absent is `None`. A JavaScript test of whether a text field is set is `Truthy`: present and not empty.
- A number field in a multipart body is text, so any number field that is present counts as set, even one that reads "0".

Points where the behaviour of the code is easy to misread:

- The unique index on (customerId, carId) (models/CarBooking.js:87) makes a second booking for the same pair fail. That error is not a `ValidationError`, so `SaveCarBooking` answers 500 from the final branch of its `catch` (controllers/CarBooking.js:30-40), not 400.
- `changeBookingStatusToComplete` answers 400 when `car.carsCount <= 0` (controllers/CarBooking.js:120-124). `carsCount` has `min: 1` (models/Car.js:65-69), so no stored car reaches that branch. Accepting the last unit makes `car.save()` fail validation (controllers/CarBooking.js:126-127), so the answer is 500 and the booking is left untouched (`BookingController.AcceptBooking`).
- `fetchAllPendingBookingsForOwner` throws when a booking's customer or owner is missing (controllers/CarBooking.js:61-69), so the whole listing answers 500 rather than skipping that booking (`BookingController.PendingForOwner`).
- Rejecting has no owner check. Accepting neither checks that the booking is still Pending nor that `carId` is the booked car. The visit handlers take customer and owner ids from the request as given.
- The sign-up token is signed with the `JWT_TOKEN` environment variable (controllers/User.js:38) and the log-in token with `JWT_SECRET` (controllers/User.js:78). `Token.secretName` records which one.

## Model

| member | source | states |
|---|---|---|
| `VisitModel.WithoutOwner` | models/RecentlyVisitedShowroom.js:38-40 | removes every visit to the owner and no other entry: the length drops by exactly the owner's occurrences, no visit to the owner is left, and the rest keep their order (subsequence) |
| `VisitModel.NoOccurrences` | models/RecentlyVisitedShowroom.js:38-40 | an owner is counted zero times exactly when no entry is a visit to it |
| `VisitModel.UniqueOccurrences` | models/RecentlyVisitedShowroom.js:38-43 | in a duplicate-free history each owner occurs at most once |
| `VisitModel.WithoutAbsentOwner` | controllers/RecentlyVisitedShowroom.js:63-69 | removing an owner that is not in the list leaves the list unchanged |
| `VisitModel.WithoutOwnerIdempotent` | controllers/RecentlyVisitedShowroom.js:63-69 | deleting the same owner twice gives the same list as deleting it once |
| `VisitModel.SubsequenceKeepsUnique` | models/RecentlyVisitedShowroom.js:38-40 | an order-preserving selection of a duplicate-free list is duplicate-free and takes its entries from that list |
| `VisitModel.Revisit` | models/RecentlyVisitedShowroom.js:38-46 | the saved list has 1 to 5 entries, its exact length is 1 plus the others capped at 5, the new visit comes first, the owner occurs exactly once, and the rest are the old entries without the owner, in order, cut to four |
| `VisitModel.RevisitKeepsLength` | models/RecentlyVisitedShowroom.js:38-46 | revisiting an owner already in a valid history keeps its length |
| `VisitModel.RevisitEvictsOldest` | models/RecentlyVisitedShowroom.js:43-46 | visiting a new owner with five entries drops the last, oldest one |
| `VisitModel.RevisitKeepsUnique` | models/RecentlyVisitedShowroom.js:38-46 | a history with no owner twice still has none after a visit |
| `Store.Db.AddShowroom` | models/RecentlyVisitedShowroom.js:26-56 | re-fetches the document; fails with no change when it is gone; otherwise it saves `Revisit` of the latest list and keeps the store valid |
| `VisitController.FindHistory` | controllers/RecentlyVisitedShowroom.js:8 | finds no history exactly when no document belongs to the customer; a found one belongs to the customer |
| `VisitController.NewVisit` | controllers/RecentlyVisitedShowroom.js:3-29 | with an existing history it delegates to `AddShowroom` and returns the list as read before the update; otherwise it creates a history holding one visit to the owner at the next id and advances the next id; the other collections are kept; the answer is always 200 |
| `VisitController.Populate` | controllers/RecentlyVisitedShowroom.js:36-39 | keeps every entry in order, each paired with its owner, or none when that user is gone |
| `VisitController.GetMyAllVisits` | controllers/RecentlyVisitedShowroom.js:31-47 | answers 200; gives null exactly when the customer has no history, and otherwise that history populated |
| `VisitController.OwnersPresent` | controllers/RecentlyVisitedShowroom.js:53-64 | every visit's owner still exists, so the populated `ownerId._id` the filter reads is not null |
| `VisitController.DeleteMyOneVisit` | controllers/RecentlyVisitedShowroom.js:49-81 | answers 404 with no change when there is no history, and 500 with no change when an entry's owner is gone; otherwise it saves the list without the owner and answers 200 |
| `BookingModel.TextError` | models/CarBooking.js:23-28 | the text passes exactly when it is present and 10 to 500 characters long; the `required` error comes exactly for a missing or empty text |
| `BookingModel.ReplyError` | models/CarBooking.js:29-41 | a reply passes exactly when it is unset or the status is Accepted or Rejected |
| `BookingModel.BookingErrors` | models/CarBooking.js:23-46 | a booking has no validation error exactly when its text length is in range and a set reply goes with a decided status |
| `BookingModel.RequestErrors` | models/CarBooking.js:11-28 | a request has no error exactly when car, owner and a valid text are given; each missing reference gives its own `required` error |
| `BookingModel.NewBooking` | models/CarBooking.js:42-50 | a valid request creates a valid booking that is Pending, has no reply, and holds the request's customer, car, owner and text |
| `BookingModel.PreSave` | models/CarBooking.js:64-72 | sets the expiry to now plus seven days only when it is unset, and the reply date to now only when the reply was modified and no date is set; nothing else changes |
| `BookingModel.PreSaveStable` | models/CarBooking.js:64-67 | a later save without a new reply changes nothing, so the expiry never moves |
| `BookingModel.VirtualName` | models/CarBooking.js:74-82 | the name is first name, a space, and last name, with a missing part shown as "" |
| `BookingModel.DecidedStaysStored` | models/CarBooking.js:29-72 | accepting or rejecting a stored booking with a reply dated now leaves it valid, and the pre-save hook then changes nothing |
| `BookingController.SaveCarBooking` | controllers/CarBooking.js:6-42 | answers 400 with the validation errors; a pair already booked answers 500; otherwise it inserts the Pending booking with expiry now plus seven days at the next id, advances the next id, and answers 200; the second save changes nothing; the other collections are kept |
| `BookingController.AcceptBooking` | controllers/CarBooking.js:95-146 | checks in source order: 400 for a short reply, 404 booking, 403 not the owner, 404 car, 500 when the last unit would go; each exit changes nothing; on success only that car loses one unit and only that booking becomes Accepted with the reply dated now |
| `BookingController.CommitAccept` | controllers/CarBooking.js:126-132 | the car's save succeeds exactly when more than one unit is left; the booking is written only after it |
| `BookingController.RejectBooking` | controllers/CarBooking.js:148-179 | answers 400 without an id or a five-character trimmed reason, and 404 for an unknown booking; otherwise the booking becomes Rejected with the reason as reply, dated now; no car changes |
| `BookingController.Enrich` | controllers/CarBooking.js:295-313 | every listed row is one of the given bookings, has all the records it needs, and is joined with them |
| `BookingController.EnrichListsComplete` | controllers/CarBooking.js:297-301 | a booking is listed exactly when it is given and its records exist |
| `BookingController.EnrichKeepsAll` | controllers/CarBooking.js:196-204 | nothing is dropped exactly when every booking's records exist |
| `BookingController.EnrichAscending` | controllers/CarBooking.js:258-270 | the listing keeps natural order and lists no booking twice |
| `BookingController.EnrichLast` | controllers/CarBooking.js:260-270 | one step of the loop: the last booking is appended exactly when its records exist |
| `BookingController.JoinEach` | controllers/CarBooking.js:342-365 | the `for` loop over the found bookings computes `Enrich` |
| `BookingController.ListingIsFilteredJoin` | controllers/CarBooking.js:337-350 | a listing holds a booking exactly when the booking matches the filter and its records exist, in ascending order |
| `BookingController.PendingForOwner` | controllers/CarBooking.js:44-93 | answers 404 for no pending booking and 500 when any lacks its customer or owner; otherwise 200 with every one of them joined, in order |
| `BookingController.CompletedForOwner` | controllers/CarBooking.js:181-233 | answers 404 exactly when the owner has no accepted booking; otherwise 200 with those whose customer, owner and car exist |
| `BookingController.SpecificCarPending` | controllers/CarBooking.js:235-282 | answers 400 without a car id, and 404 when no pending booking of the owner is for that car; otherwise 200 with those whose customer exists |
| `BookingController.OtherCarsPending` | controllers/CarBooking.js:284-331 | lists the owner's pending bookings for cars other than the given one (for every car when the query has no `carId`) whose customer and car exist; answers 404 exactly when none is left |
| `BookingController.CustomerBookings` | controllers/CarBooking.js:333-478 | lists the caller's bookings with the given status whose customer, car and owner exist; answers 404 exactly when none is left |
| `CarModel.ArrayLimit` | models/Car.js:3-5 | a car holds one to four images |
| `CarModel.CarValid` | models/Car.js:8-69 | the schema validators on a car: the enums, the ranges of price, seats, mileage, EMI and count, a non-empty model name and description, and `arrayLimit` on the images |
| `CarModel.StoredCarHasUnits` | models/Car.js:65-69 | a valid car has at least one unit, and one less still validates exactly when more than one was left |
| `CarModel.OwnerCountIsScanLength` | controllers/Car.js:27-28 | the number of cars `find({ ownerId })` returns is the owner's count in the store invariant |
| `CarModel.OwnerCountAgree` | controllers/Car.js:27-28 | two collections that agree on which ids are taken and by which owner give the same counts |
| `CarModel.OwnerCountInsert` | controllers/Car.js:34-47 | a car created under the next id adds one to its own owner's count and changes no other owner's |
| `CarModel.OwnerCountShrink` | controllers/Car.js:137 | deleting a car never raises any owner's count |
| `Store.ConsistentInsertCar` | controllers/Car.js:27-47 | creating a valid car for an owner with fewer than five keeps the whole database invariant, the five-car bound included |
| `Store.ConsistentSetCar` | models/Car.js:8-69 | saving a valid car without changing its owner keeps the database invariant |
| `Store.ConsistentRemoveCar` | controllers/Car.js:137 | deleting a car keeps the database invariant |
| `Store.Db.InsertUser` | controllers/User.js:26-34 | `User.create` of a stored user with an untaken email: the user goes in at the next id, the next id advances, the other collections are kept, and the store stays valid |
| `Store.Db.SetUser` | controllers/User.js:102 | `user.save()` of a stored user whose email no other user has: only that user changes and the store stays valid |
| `Store.Db.InsertBooking` | controllers/CarBooking.js:12-17 | `CarBookings.create` of a stored booking for a pair not yet booked: it goes in at the next id, the next id advances, the other collections are kept, and the store stays valid |
| `Store.Db.SetBooking` | controllers/CarBooking.js:132 | `booking.save()` keeping customer and car: only that booking changes and the store stays valid |
| `Store.Db.InsertVisit` | controllers/RecentlyVisitedShowroom.js:13-16 | `RecentlyVisitedShowroom.create` of a valid history for a customer without one: it goes in at the next id, the next id advances, and the store stays valid |
| `Store.Db.SetVisits` | controllers/RecentlyVisitedShowroom.js:67-69 | `showroom.save()` of a valid list: only that history's list changes, its customer is kept, and the store stays valid |
| `Store.Db.InsertCar` | controllers/Car.js:27-47 | inserts a valid car for an owner with fewer than five at the next id; the store stays valid, five-car bound included |
| `Store.Db.SaveCar` | models/Car.js:8-69 | the car is written exactly when it passes the schema validators; otherwise nothing changes |
| `Store.Db.RemoveCar` | controllers/Car.js:131-137 | removes exactly that car and keeps the store valid |
| `CarController.ImagePaths` | controllers/Car.js:19 | one path per upload, each the file name behind "/CarImages/" |
| `CarController.CarOf` | controllers/Car.js:34-47 | the created car carries each request field under its schema name, with the text fields trimmed and the image paths prefixed |
| `CarController.CreateCar` | controllers/Car.js:4-65 | answers 400 for more than four images before reading the store, 400 when the owner has five cars, and 500 for a form that fails validation; otherwise it inserts the car at the next id, advances the next id, and answers 201; the other collections are kept |
| `CarController.OwnerNeverExceedsFive` | controllers/Car.js:27-32 | in any valid store `find({ ownerId })` returns at most five cars |
| `CarController.GetMyCars` | controllers/Car.js:67-84 | lists exactly the owner's cars, in ascending id order with none twice; answers 404 exactly when there are none |
| `CarController.Patch` | controllers/Car.js:104-107 | replaces price, count and description only when set, images only when some were uploaded, and nothing else |
| `CarController.EmptyPatchChangesNothing` | controllers/Car.js:104-107 | a patch with nothing set leaves the car unchanged |
| `CarController.UpdateCar` | controllers/Car.js:86-126 | answers 400 with no change for more than four images or an unknown car; otherwise it saves the patched car with 200, or answers 500 with no change when it fails validation |
| `CarController.DeleteCar` | controllers/Car.js:128-154 | answers 400 for an unknown car; otherwise it removes exactly that one and answers 200 |
| `CarController.WithCounts` | controllers/Car.js:160-165 | annotates each user with the number of cars it owns, lists exactly the given users, and keeps them in ascending order when they were |
| `CarController.Showrooms` | controllers/Car.js:158-165 | lists exactly the users the filter keeps, in ascending id order with none twice, each with the user and the number of cars it owns |
| `CarController.GetAllShowrooms` | controllers/Car.js:156-174 | lists exactly the Owner users, in ascending id order with none twice, each with its number of cars; always 200 |
| `CarController.ShowroomCountBounded` | controllers/Car.js:160-165 | each showroom's count in a valid store is at most five |
| `CarController.Capitalise` | controllers/Car.js:183-184 | keeps the length, upper-cases the first character, and keeps the rest |
| `CarController.CapitaliseKeepsOut` | controllers/Car.js:183-184 | capitalising introduces no character except upper-case letters |
| `CarController.CapitaliseKeepsTrimmed` | controllers/Car.js:183-184 | capitalising a trimmed text leaves it trimmed |
| `CarController.SearchTerm` | controllers/Car.js:180-184 | the location term: the text after the last comma, trimmed, with its first letter capitalised; its properties are stated by `SearchTermShape` and `SearchTermCases` |
| `CarController.SearchTermShape` | controllers/Car.js:180-184 | the search term has no comma, no white space at either end, and no lower-case first letter, and is no longer than the text |
| `CarController.SearchTermCases` | controllers/Car.js:180-184 | a text without commas is searched for as itself, trimmed and capitalised; a text ending in a comma gives the empty term |
| `CarController.EmptyTermMatchesAll` | controllers/Car.js:186-190 | the empty term matches every location |
| `CarController.SearchLocation` | controllers/Car.js:186-207 | lists exactly the users whose location contains the given term, ignoring case, in ascending id order with none twice, each with its car count; answers 404 exactly when there are none |
| `CarController.SearchForShowrooms` | controllers/Car.js:176-214 | lists exactly the users whose location contains the term made from the text, ignoring case, in ascending id order with none twice; answers 404 exactly when there are none |
| `CarController.SearchCarData` | controllers/Car.js:216-231 | answers 200 with the car exactly when it exists, otherwise 404 |
| `CarController.FetchUserData` | controllers/Car.js:233-248 | answers 200 with the user exactly when it exists, otherwise 404 |
| `JsString.Trim` | models/Car.js:12 | the result is the slice of the text that follows its leading white space and precedes its trailing white space; it has no white space at either end, and it is empty exactly when the text is all white space |
| `JsString.TrimIsUnique` | models/Car.js:12 | any slice of the text with only white space around it and none at either end is the trimmed text, so the contract of `Trim` fixes its value |
| `JsString.TrimmedIsFixed` | models/Car.js:12 | a text has no white space at either end exactly when trimming leaves it as it is |
| `JsString.TrimIdempotent` | models/Car.js:55-59 | trimming a trimmed text changes nothing |
| `JsString.TrimKeepsOut` | controllers/Car.js:180 | trimming adds no character |
| `JsString.Split` | controllers/Car.js:180 | gives at least one piece, no piece holds the separator, and joining the pieces gives back the text |
| `JsString.LastPieceIsSuffix` | controllers/Car.js:181 | the last piece is a suffix of the text: all of it, or right after a separator |
| `JsString.LastPieceIsAfterLast` | controllers/Car.js:181 | the last piece of the split is the text after the last separator |
| `JsString.AfterLastIsSuffix` | controllers/Car.js:181 | the text after the last separator is a suffix that is all of the text or follows a separator |
| `JsString.SplitWithoutSeparator` | controllers/Car.js:180 | a text without a separator splits into itself |
| `JsString.Lower` | models/User.js:10 | keeps the length and lower-cases each ASCII letter |
| `JsString.LowerIdempotent` | models/User.js:10 | lower-casing a lower-cased text changes nothing |
| `UserModel.ParseRole` | models/User.js:25-30 | gives Owner exactly for "Owner", and Customer for "Customer" or when no role is given |
| `UserModel.PreSave` | models/User.js:45-54 | a password assigned since the last save is stored as its digest; a document without one is left as it is |
| `UserModel.UserValid` | models/User.js:4-43 | the schema validators: email, password and first name required, both names at most 50 characters |
| `UserModel.ComparePassword` | models/User.js:56-58 | the entered text matches a stored password exactly when it is a digest of that text |
| `UserModel.SavedPasswordMatches` | models/User.js:45-58 | after a save, the stored password accepts the text that was assigned, and under the symbolic digest no other text |
| `UserController.FindByEmail` | controllers/User.js:15 | finds no user exactly when no stored email equals the lower-cased query; a found user has it |
| `UserController.ProfilePic` | controllers/User.js:22-24 | the uploaded file behind "/UserPFPs/", or the anonymous avatar |
| `UserController.NewUser` | controllers/User.js:26-34 | the document validates exactly when the role is known and the required fields are non-empty with names of at most 50 characters; it holds the lower-cased email, the plain password and the defaults |
| `UserController.CreateUser` | controllers/User.js:4-61 | answers 400 for a missing email, password or first name, 400 for an email in use, and 500 for a document that fails validation; otherwise it stores the user with the password hashed and answers 201 with a token for the new id |
| `UserController.LoginUser` | controllers/User.js:63-86 | answers 200 exactly when a stored user has the email and accepts the password, with a token for that user; 500 exactly when the email exists but no password is sent; 401 otherwise |
| `UserController.SignUpThenLogIn` | controllers/User.js:26-40 | after a sign-up, logging in with the same email and password answers 200 with a token for the new account |
| `UserController.CoverPath` | controllers/User.js:91 | the uploaded file behind "/ShowroomPFPs/", or null without one |
| `UserController.CompleteOwnerDetails` | controllers/User.js:88-119 | answers 404 for an unknown user; otherwise it replaces location, car name and cover, and nothing else, and answers 200 |
| `UserController.ShowroomChangeKeepsLogIn` | controllers/User.js:99-102 | changing the showroom details keeps the store valid and changes no log-in answer |
| `UserController.Changed` | controllers/User.js:150-155 | each set field replaces its old value, a new password as plain text, and every other field is kept |
| `UserController.ChangedValid` | controllers/User.js:150-157 | a changed user fails validation exactly when a new name is over 50 characters |
| `UserController.ChangedPasswordTakesEffect` | controllers/User.js:152 | after the save a new password is accepted, and under the symbolic digest no other text; without one the old credential stays |
| `UserController.ChangeUserDetails` | controllers/User.js:121-175 | answers 400 for an unknown user, 500 without a confirming password, and 400 for a wrong one, each with no change; otherwise it saves the changed user with 200, or answers 500 with no change when it fails validation |

## Left out

- Express routing, static file serving, the upload middleware (configs/UserPFPConfig.js) and database start-up in index.js are not part of this model. The caller id of the token middleware is a parameter.
- bcrypt is not modelled. A digest is symbolic and remembers its secret and salt, and comparing holds exactly for that secret.
- UserModel.SavedPasswordMatches: the "no other text" half holds for the symbolic digest only. bcrypt compares only the first 72 bytes of a password, so two passwords that agree on those bytes both match.
- UserController.ChangedPasswordTakesEffect: the "no other text" half holds for the symbolic digest only, for the same 72-byte reason.
- JWT signing is not modelled. A token is its payload and the name of its signing variable. A missing signing secret, which throws after the user was created, is not modelled.
- Mongoose casting is left out: strings to numbers, invalid ObjectIds (the `isValid` test in the specific-car listing is reduced to "id present"), and the 500 that a cast error in a query (`findById`, `find`) gives. A cast error inside `CarBookings.create` would be a `ValidationError` and answer 400; it is not modelled either. Number fields are whole numbers; floating point is not modelled.
- A query on an absent (`undefined`) id in the visit, user and car handlers, and on an absent `bookingId` or `carId` in `changeBookingStatusToComplete` (`BookingController.AcceptBooking`), is not modelled. Ids are always given there. The other booking handlers model an absent id as `None`: `RejectBooking` and `SpecificCarPending` answer 400, and `OtherCarsPending` excludes no car.
- `CarController.SearchForShowrooms`: the term is matched as a plain substring, with ASCII case folding. Regular expression metacharacters in the term (not escaped by the source) and non-ASCII case mapping are not modelled.
- `JsString.Lower`: only ASCII letters change case. Lengths count characters, not UTF-16 code units.
- The unreachable `else` branches after a successful save (400 in `createCar`, `updateCar`, `completeOwnerDetails` and `changeUserDetails`; no answer at all in `SaveCarBooking`) are not modelled. A save either commits or throws.
- Concurrency is not modelled: `Promise.all` in the listings, races between a check and a write (duplicate email, the five-car bound, the accept decrement, the `addShowroom` re-fetch). Requests run one at a time. A user's email is assumed not taken between the check and the insert.
- Response bodies other than status codes and the returned records or lists are not modelled: messages, logging, selected fields of a populated user, and the `{...booking, extra fields}` shaping. A listing row is the booking plus the records it was joined with.
- Timestamps (`createdAt`, `updatedAt`) are not modelled. `now` is passed in, and the only date arithmetic is the seven-day expiry.
- `BookingController.CustomerBookings` alone covers the three customer listings (pending, accepted and rejected), which differ only in the status they filter on.
- `UserController.LoginUser`: requires the store's user invariant, since with unique emails the first match is the only one.
