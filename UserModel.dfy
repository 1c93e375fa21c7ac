/**
 * The User document (models/User.js): account identity, credential, names,
 * role, profile picture and the showroom sub-record an owner fills in, with
 * the schema's defaults and limits and the pre-save hook that hashes a
 * newly assigned password.
 *
 * bcrypt is not modelled: a stored credential is a symbolic digest that
 * remembers the secret it was made from, and `ComparePassword` holds exactly
 * when the entered text is that secret (what `bcrypt.compare` promises).
 */
module UserModel {
  import opened Common
  import JsString

  /** The `userType` enum. */
  datatype Role = Owner | Customer

  /** A password as the document holds it. `Plain` is a value assigned since
      the last save, the state in which `isModified("password")` holds;
      `Digest` is what the pre-save hook stores in its place. */
  datatype Password = Plain(text: string) | Digest(secret: string, salt: nat)

  /** The `showroomDetails` sub-document; null fields are `None`. */
  datatype ShowroomDetails = ShowroomDetails(location: Option<string>, carName: Option<string>, coverPFP: Option<string>)

  datatype User = User(
    email: string,
    password: Password,
    firstName: string,
    lastName: Option<string>,
    userType: Role,
    profilePic: string,
    showroomDetails: ShowroomDetails)

  /** The schema default of `profilePic`. */
  const AnonymousAvatar: string := "https://icon-library.com/images/anonymous-avatar-icon/anonymous-avatar-icon-25.jpg"

  /** The schema default of `showroomDetails`: every field null. */
  const NoShowroom: ShowroomDetails := ShowroomDetails(None, None, None)

  /** `maxlength` of `firstName` and `lastName`. */
  const MaxNameLength: nat := 50

  /** The `userType` path: the enum, with `Customer` when the field is absent.
      `None` means the value fails validation. */
  function ParseRole(s: Option<string>): (r: Option<Role>)
    ensures r == Some(Owner) <==> s == Some("Owner")
    ensures r == Some(Customer) <==> (s == None || s == Some("Customer"))
  {
    match s
    case None => Some(Customer)
    case Some(t) => if t == "Owner" then Some(Owner) else if t == "Customer" then Some(Customer) else None
  }

  /** The schema validators on a user document: required email, password and
      firstName, and the 50-character limit on both names. */
  predicate UserValid(u: User) {
    && u.email != ""
    && (u.password.Plain? ==> u.password.text != "")
    && u.firstName != "" && |u.firstName| <= MaxNameLength
    && (u.lastName.Some? ==> |u.lastName.value| <= MaxNameLength)
  }

  /** The pre-save hook: a password assigned since the last save is replaced
      by its digest under `salt`; otherwise the document is left as it is. */
  function PreSave(u: User, salt: nat): (r: User)
    ensures r.password.Digest?
    ensures u.password.Digest? ==> r == u
    ensures u.password.Plain? ==> r == u.(password := Digest(u.password.text, salt))
  {
    if u.password.Plain? then u.(password := Digest(u.password.text, salt)) else u
  }

  /** `user.comparePassword(entered)`, i.e. `bcrypt.compare(entered, hash)`. */
  predicate ComparePassword(entered: string, stored: Password) {
    stored.Digest? && stored.secret == entered
  }

  /** Hash then compare: after a save, the stored password matches exactly
      the text that was assigned. */
  lemma SavedPasswordMatches(u: User, salt: nat, entered: string)
    requires u.password.Plain?
    ensures ComparePassword(entered, PreSave(u, salt).password) <==> entered == u.password.text
  {
  }

  /** The filter of `User.findOne({ email })`. `lowercase: true` applies to
      the query value as well as to the stored one. */
  function HasEmail(e: string): User -> bool {
    (u: User) => u.email == JsString.Lower(e)
  }

  /** The filter of `User.find({ userType: "Owner" })`. */
  function IsOwner(): User -> bool {
    (u: User) => u.userType == Owner
  }

  /** A stored user: valid, lower-case email, password hashed. */
  predicate StoredUser(u: User) {
    UserValid(u) && u.email == JsString.Lower(u.email) && u.password.Digest?
  }

  /** Invariant of the User collection, with the unique index on `email`. */
  ghost predicate UsersValid(m: map<Id, User>) {
    && (forall k :: k in m ==> StoredUser(m[k]))
    && (forall i, j :: i in m && j in m && m[i].email == m[j].email ==> i == j)
  }

  /** A JSON Web Token: the payload `{ userId, email, userType }` and the
      name of the environment variable whose value signs it. The signature
      itself is not modelled. */
  datatype Token = Token(secretName: string, userId: Id, email: string, userType: Role)
}
