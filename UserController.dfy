/**
 * The account handlers (controllers/User.js): sign-up, log-in, the owner's
 * showroom details and the change of account details. Uploaded files are
 * given by their stored file names, `None` when no file was sent; a request
 * field is `None` when it is absent. The salt bcrypt would draw is a
 * parameter.
 */
module UserController {
  import opened Common
  import JsString
  import opened UserModel
  import opened Store

  /** The environment variable that signs the token `createUser` returns. */
  const SignUpSecret: string := "JWT_TOKEN"

  /** The environment variable that signs the token `loginUser` returns. */
  const LogInSecret: string := "JWT_SECRET"

  /** `User.findOne({ email })`: the first user with that email in natural
      order; with the unique index it is the only one. */
  function FindByEmail(users: map<Id, User>, e: string, n: nat): (r: Option<Id>)
    requires Bounded(users, n)
    ensures r.None? <==> forall k :: k in users ==> users[k].email != JsString.Lower(e)
    ensures r.Some? ==> r.value in users && users[r.value].email == JsString.Lower(e)
  {
    var found := Scan(users, HasEmail(e), n);
    if found == [] then
      assert forall k :: k in users && users[k].email == JsString.Lower(e) ==> k in found;
      None
    else Some(found[0])
  }

  /** The profile picture of a new account: the uploaded file, or the schema
      default. */
  function ProfilePic(file: Option<string>): (r: string)
    ensures file.None? ==> r == AnonymousAvatar
    ensures file.Some? ==> r == "/UserPFPs/" + file.value
  {
    if file.Some? then "/UserPFPs/" + file.value else AnonymousAvatar
  }

  /** The document `User.create` builds from the sign-up fields, or `None`
      when it fails validation: an unknown role, or a name over fifty
      characters. */
  function NewUser(email: string, password: string, firstName: string, lastName: Option<string>,
                   userType: Option<string>, showroom: Option<ShowroomDetails>, file: Option<string>): (r: Option<User>)
    ensures r.Some? <==>
      && ParseRole(userType).Some?
      && email != "" && password != "" && firstName != ""
      && |firstName| <= MaxNameLength && (lastName.Some? ==> |lastName.value| <= MaxNameLength)
    ensures r.Some? ==>
      && UserValid(r.value)
      && r.value.email == JsString.Lower(email) && r.value.password == Plain(password)
      && r.value.firstName == firstName && r.value.lastName == lastName
      && Some(r.value.userType) == ParseRole(userType)
      && r.value.profilePic == ProfilePic(file)
      && r.value.showroomDetails == (if showroom.Some? then showroom.value else NoShowroom)
  {
    var role := ParseRole(userType);
    if role.None? then None
    else
      var u := User(JsString.Lower(email), Plain(password), firstName, lastName, role.value,
                    ProfilePic(file), if showroom.Some? then showroom.value else NoShowroom);
      if UserValid(u) then Some(u) else None
  }

  /**
   * `createUser`: a falsy email, password or first name answers 400; an
   * email already in use answers 400; a document that fails validation
   * answers 500; otherwise the user is stored with its password hashed and
   * the answer is 201 with a token naming the new user.
   */
  method CreateUser(db: Db, email: Option<string>, password: Option<string>, firstName: Option<string>,
                    lastName: Option<string>, userType: Option<string>, showroom: Option<ShowroomDetails>,
                    file: Option<string>, salt: nat)
    returns (status: int, token: Option<Token>)
    requires db.Valid()
    modifies db
    ensures db.Valid()
    ensures db.cars == old(db.cars) && db.bookings == old(db.bookings) && db.visits == old(db.visits)
    ensures
      if !Truthy(email) || !Truthy(password) || !Truthy(firstName) then
        status == BAD_REQUEST && token == None && db.users == old(db.users) && db.nextId == old(db.nextId)
      else if FindByEmail(old(db.users), email.value, old(db.nextId)).Some? then
        status == BAD_REQUEST && token == None && db.users == old(db.users) && db.nextId == old(db.nextId)
      else
        var u := NewUser(email.value, password.value, firstName.value, lastName, userType, showroom, file);
        if u.None? then
          status == SERVER_ERROR && token == None && db.users == old(db.users) && db.nextId == old(db.nextId)
        else
          && status == CREATED
          && token == Some(Token(SignUpSecret, old(db.nextId), u.value.email, u.value.userType))
          && db.users == old(db.users)[old(db.nextId) := UserModel.PreSave(u.value, salt)]
          && db.nextId == old(db.nextId) + 1
  {
    if !Truthy(email) || !Truthy(password) || !Truthy(firstName) {
      return BAD_REQUEST, None;
    }
    var existing := FindByEmail(db.users, email.value, db.nextId);
    if existing.Some? {
      return BAD_REQUEST, None;
    }
    var u := NewUser(email.value, password.value, firstName.value, lastName, userType, showroom, file);
    if u.None? {
      return SERVER_ERROR, None;
    }
    JsString.LowerIdempotent(email.value);
    var id := db.InsertUser(UserModel.PreSave(u.value, salt));
    return CREATED, Some(Token(SignUpSecret, id, u.value.email, u.value.userType));
  }

  /**
   * `loginUser`: 401 when no account has the email; 500 when no password is
   * sent (bcrypt refuses to compare an undefined value); 401 when the
   * password does not match; otherwise 200 with a token naming the account.
   * It reads only.
   */
  function LoginUser(users: map<Id, User>, n: nat, email: string, password: Option<string>): (r: (int, Option<Token>))
    requires Bounded(users, n) && UsersValid(users)
    ensures r.0 == OK <==>
      password.Some? && exists k :: k in users && users[k].email == JsString.Lower(email) && ComparePassword(password.value, users[k].password)
    ensures r.0 == SERVER_ERROR <==>
      password.None? && exists k :: k in users && users[k].email == JsString.Lower(email)
    ensures r.0 != OK ==> r.1 == None && (r.0 == UNAUTHORIZED || r.0 == SERVER_ERROR)
    ensures r.0 == OK ==>
      exists k :: k in users && users[k].email == JsString.Lower(email)
        && r.1 == Some(Token(LogInSecret, k, users[k].email, users[k].userType))
  {
    var found := FindByEmail(users, email, n);
    if found.None? then (UNAUTHORIZED, None)
    else if password.None? then (SERVER_ERROR, None)
    else
      var u := users[found.value];
      if !ComparePassword(password.value, u.password) then (UNAUTHORIZED, None)
      else (OK, Some(Token(LogInSecret, found.value, u.email, u.userType)))
  }

  /** Signing up and then logging in with the same email and password
      succeeds, and the token names the new account; the two tokens differ
      only in the variable that signs them. */
  lemma SignUpThenLogIn(users: map<Id, User>, n: nat, email: string, password: string, firstName: string,
                        lastName: Option<string>, userType: Option<string>, showroom: Option<ShowroomDetails>,
                        file: Option<string>, salt: nat)
    requires Bounded(users, n) && UsersValid(users)
    requires FindByEmail(users, email, n).None?
    requires NewUser(email, password, firstName, lastName, userType, showroom, file).Some?
    ensures var u := NewUser(email, password, firstName, lastName, userType, showroom, file).value;
      LoginUser(users[n := UserModel.PreSave(u, salt)], n + 1, email, Some(password))
        == (OK, Some(Token(LogInSecret, n, u.email, u.userType)))
  {
    var u := NewUser(email, password, firstName, lastName, userType, showroom, file).value;
    var stored := UserModel.PreSave(u, salt);
    var after := users[n := stored];
    JsString.LowerIdempotent(email);
    assert UsersValid(after);
    var found := FindByEmail(after, email, n + 1);
    assert found == Some(n);
    SavedPasswordMatches(u, salt, password);
  }

  /** The cover picture `completeOwnerDetails` stores: the uploaded file, or
      null. */
  function CoverPath(file: Option<string>): (r: Option<string>)
    ensures r.Some? <==> file.Some?
    ensures file.Some? ==> r.value == "/ShowroomPFPs/" + file.value
  {
    if file.Some? then Some("/ShowroomPFPs/" + file.value) else None
  }

  /**
   * `completeOwnerDetails`: 404 for an unknown account; otherwise the three
   * showroom fields are replaced (location, the company name as `carName`,
   * the uploaded cover or null) and the answer is 200. Nothing the schema
   * validates changes, so the save cannot fail.
   */
  method CompleteOwnerDetails(db: Db, id: Id, location: Option<string>, companyName: Option<string>, file: Option<string>)
    returns (status: int)
    requires db.Valid()
    modifies db
    ensures db.Valid()
    ensures db.cars == old(db.cars) && db.bookings == old(db.bookings) && db.visits == old(db.visits) && db.nextId == old(db.nextId)
    ensures id !in old(db.users) ==> status == NOT_FOUND && db.users == old(db.users)
    ensures id in old(db.users) ==>
      && status == OK
      && db.users == old(db.users)[id := old(db.users)[id].(showroomDetails := ShowroomDetails(location, companyName, CoverPath(file)))]
  {
    if id !in db.users {
      return NOT_FOUND;
    }
    var u := db.users[id];
    db.SetUser(id, u.(showroomDetails := ShowroomDetails(location, companyName, CoverPath(file))));
    status := OK;
  }

  /** Changing a user's showroom details keeps every account valid and every
      email unique. */
  lemma ShowroomChangeKeepsUsersValid(users: map<Id, User>, id: Id, d: ShowroomDetails)
    requires UsersValid(users) && id in users
    ensures UsersValid(users[id := users[id].(showroomDetails := d)])
  {
    var after := users[id := users[id].(showroomDetails := d)];
    assert forall k :: k in after ==> after[k].email == users[k].email;
  }

  /** Changing a user's showroom details changes no log-in answer. */
  lemma ShowroomChangeKeepsLogIn(users: map<Id, User>, n: nat, id: Id, d: ShowroomDetails, email: string, password: Option<string>)
    requires Bounded(users, n) && UsersValid(users) && id in users
    ensures UsersValid(users[id := users[id].(showroomDetails := d)])
    ensures LoginUser(users[id := users[id].(showroomDetails := d)], n, email, password) == LoginUser(users, n, email, password)
  {
    var after := users[id := users[id].(showroomDetails := d)];
    ShowroomChangeKeepsUsersValid(users, id, d);
    ScanUpdate(users, HasEmail(email), n, id, after[id]);
    var found := FindByEmail(users, email, n);
    assert FindByEmail(after, email, n) == found;
    if found.Some? {
      var k := found.value;
      assert after[k].password == users[k].password && after[k].email == users[k].email;
      assert after[k].userType == users[k].userType;
    }
  }

  /** The document `changeUserDetails` saves: each truthy field replaces the
      old one (a new password as plain text, for the pre-save hook to hash),
      and each uploaded picture replaces its path. */
  function Changed(u: User, firstName: Option<string>, lastName: Option<string>, password: Option<string>,
                   newLocation: Option<string>, profileFile: Option<string>, coverFile: Option<string>): (r: User)
    ensures r.email == u.email && r.userType == u.userType && r.showroomDetails.carName == u.showroomDetails.carName
    ensures r.firstName == (if Truthy(firstName) then firstName.value else u.firstName)
    ensures r.lastName == (if Truthy(lastName) then lastName else u.lastName)
    ensures r.password == (if Truthy(password) then Plain(password.value) else u.password)
    ensures r.showroomDetails.location == (if Truthy(newLocation) then newLocation else u.showroomDetails.location)
    ensures r.showroomDetails.coverPFP == (if coverFile.Some? then Some("/ShowroomPFPs/" + coverFile.value) else u.showroomDetails.coverPFP)
    ensures r.profilePic == (if profileFile.Some? then "/UserPFPs/" + profileFile.value else u.profilePic)
  {
    var u1 := if Truthy(firstName) then u.(firstName := firstName.value) else u;
    var u2 := if Truthy(lastName) then u1.(lastName := lastName) else u1;
    var u3 := if Truthy(password) then u2.(password := Plain(password.value)) else u2;
    var u4 := if Truthy(newLocation) then u3.(showroomDetails := u3.showroomDetails.(location := newLocation)) else u3;
    var u5 := if coverFile.Some? then u4.(showroomDetails := u4.showroomDetails.(coverPFP := Some("/ShowroomPFPs/" + coverFile.value))) else u4;
    if profileFile.Some? then u5.(profilePic := "/UserPFPs/" + profileFile.value) else u5
  }

  /** A changed valid user fails validation exactly when a new name is
      longer than fifty characters. */
  lemma ChangedValid(u: User, firstName: Option<string>, lastName: Option<string>, password: Option<string>,
                     newLocation: Option<string>, profileFile: Option<string>, coverFile: Option<string>)
    requires UserValid(u)
    ensures UserValid(Changed(u, firstName, lastName, password, newLocation, profileFile, coverFile)) <==>
      (Truthy(firstName) ==> |firstName.value| <= MaxNameLength) && (Truthy(lastName) ==> |lastName.value| <= MaxNameLength)
  {
  }

  /** After a change is saved, the account accepts the new password and no
      other when one was given, and its old credential otherwise. */
  lemma ChangedPasswordTakesEffect(u: User, firstName: Option<string>, lastName: Option<string>, password: Option<string>,
                                   newLocation: Option<string>, profileFile: Option<string>, coverFile: Option<string>,
                                   salt: nat, entered: string)
    requires u.password.Digest?
    ensures var saved := UserModel.PreSave(Changed(u, firstName, lastName, password, newLocation, profileFile, coverFile), salt);
      && (Truthy(password) ==> (ComparePassword(entered, saved.password) <==> entered == password.value))
      && (!Truthy(password) ==> saved.password == u.password)
  {
  }

  /**
   * `changeUserDetails`: 400 for an unknown account; 500 when no confirming
   * password is sent; 400 when it does not match; otherwise the changed
   * document is saved with a new password hashed (200), or nothing changes
   * when it fails validation (500).
   */
  method ChangeUserDetails(db: Db, id: Id, firstName: Option<string>, lastName: Option<string>, password: Option<string>,
                           newLocation: Option<string>, confirmPassword: Option<string>,
                           profileFile: Option<string>, coverFile: Option<string>, salt: nat)
    returns (status: int)
    requires db.Valid()
    modifies db
    ensures db.Valid()
    ensures db.cars == old(db.cars) && db.bookings == old(db.bookings) && db.visits == old(db.visits) && db.nextId == old(db.nextId)
    ensures
      if id !in old(db.users) then status == BAD_REQUEST && db.users == old(db.users)
      else if confirmPassword.None? then status == SERVER_ERROR && db.users == old(db.users)
      else if !ComparePassword(confirmPassword.value, old(db.users)[id].password) then
        status == BAD_REQUEST && db.users == old(db.users)
      else
        var changed := Changed(old(db.users)[id], firstName, lastName, password, newLocation, profileFile, coverFile);
        if UserValid(changed) then status == OK && db.users == old(db.users)[id := UserModel.PreSave(changed, salt)]
        else status == SERVER_ERROR && db.users == old(db.users)
  {
    if id !in db.users {
      return BAD_REQUEST;
    }
    var u := db.users[id];
    if confirmPassword.None? {
      return SERVER_ERROR;
    }
    if !ComparePassword(confirmPassword.value, u.password) {
      return BAD_REQUEST;
    }
    var changed := Changed(u, firstName, lastName, password, newLocation, profileFile, coverFile);
    if !UserValid(changed) {
      return SERVER_ERROR;
    }
    db.SetUser(id, UserModel.PreSave(changed, salt));
    status := OK;
  }
}
