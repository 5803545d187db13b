/** The staff account handlers: registration (duplicate check, role normalisation,
    profile photo), login (guard order, public user view), profile update, and
    promotion/demotion. Password hashing and comparison are parameters. */
module UserController {
  import opened Common
  import opened UserModel
  import opened Store

  /** A profile photo upload: no file sent, an upload that returned a url, or one that
      threw. */
  datatype Upload = NoFile | Uploaded(url: string) | UploadFailed

  /** The role a self-registration stores: an "admin" request becomes "cook", an absent
      or empty one defaults to "cook", anything else is passed on (and validated by the
      schema). */
  function RegisteredRole(role: Option<string>): (r: string)
    ensures r != "admin"
    ensures role.None? || role == Some("admin") || role == Some("") ==> r == "cook"
    ensures role.Some? && role.value != "admin" && role.value != "" ==> r == role.value
  {
    if role == Some("admin") then "cook" else if Truthy(role) then role.value else "cook"
  }

  /** Whatever was requested, a registered account is never an admin. */
  lemma RegisteredNeverAdmin(id: Id, fullname: Option<string>, email: Option<string>,
                             phoneNumber: Option<string>, password: string, role: Option<string>,
                             photo: Option<string>)
    ensures var u := CreateUser(id, fullname, email, phoneNumber, password, Some(RegisteredRole(role)), photo);
            u.Some? ==> u.value.role == Cook
  {
    var u := CreateUser(id, fullname, email, phoneNumber, password, Some(RegisteredRole(role)), photo);
    if u.Some? {
      assert RoleName(u.value.role) != "admin";
    }
  }

  /** The default avatar url for a user name; `encode` stands for `encodeURIComponent`. */
  function AvatarUrl(fullname: Option<string>, encode: string -> string): string
  {
    "https://ui-avatars.com/api/?name=" + encode(if Truthy(fullname) then fullname.value else "User")
      + "&background=0D8ABC&color=fff&size=150"
  }

  /** The photo a registration stores: the uploaded url, or the avatar when no file was
      sent or the upload failed. */
  function RegisterPhoto(fullname: Option<string>, upload: Upload, encode: string -> string): (r: string)
    ensures upload.Uploaded? ==> r == upload.url
    ensures !upload.Uploaded? ==> r == AvatarUrl(fullname, encode)
  {
    if upload.Uploaded? then upload.url else AvatarUrl(fullname, encode)
  }

  /** `register`. `hash` stands for bcrypt, which throws on a missing password. */
  method Register(db: Db, fullname: Option<string>, email: Option<string>, phoneNumber: Option<string>,
                  password: Option<string>, role: Option<string>, upload: Upload,
                  hash: string -> string, encode: string -> string) returns (resp: Response)
    requires db.Valid()
    modifies db
    ensures db.Valid()
    ensures UserByEmail(old(db.users), email).Some? ==>
              resp == Response(400, "User already exists") && db.Snapshot() == old(db.Snapshot())
    ensures UserByEmail(old(db.users), email).None? && password.None? ==>
              resp == Response(500, "Internal Server Error") && db.Snapshot() == old(db.Snapshot())
    ensures UserByEmail(old(db.users), email).None? && password.Some? ==>
              var u := CreateUser(old(db.nextId), fullname, email, phoneNumber, hash(password.value),
                                  Some(RegisteredRole(role)), Some(RegisterPhoto(fullname, upload, encode)));
              && (u.None? ==> resp == Response(400, "Validation failed") && db.Snapshot() == old(db.Snapshot()))
              && (u.Some? ==>
                    && resp == Response(201, "Account created successfully")
                    && db.users == old(db.users) + [u.value]
                    && db.nextId == old(db.nextId) + 1
                    && db.Snapshot() == old(db.Snapshot()).(users := db.users, nextId := db.nextId))
  {
    if UserByEmail(db.users, email).Some? {
      return Response(400, "User already exists");
    }
    if password.None? {
      return Response(500, "Internal Server Error");
    }
    var u := CreateUser(db.nextId, fullname, email, phoneNumber, hash(password.value),
                        Some(RegisteredRole(role)), Some(RegisterPhoto(fullname, upload, encode)));
    if u.None? {
      return Response(400, "Validation failed");
    }
    ValidAddUser(db.Snapshot(), u.value);
    ghost var after := db.Snapshot().(users := db.users + [u.value], nextId := db.nextId + 1);
    db.users, db.nextId := db.users + [u.value], db.nextId + 1;
    assert db.Snapshot() == after;
    return Response(201, "Account created successfully");
  }

  /** The user object login returns: every field but the password hash. */
  datatype PublicUser = PublicUser(id: Id, fullname: string, email: string, phoneNumber: string,
                                   bio: Option<string>, profilePhoto: string, role: Role)

  function PublicView(u: User): (p: PublicUser)
    ensures p.id == u.id && p.fullname == u.fullname && p.email == u.email
    ensures p.phoneNumber == u.phoneNumber && p.bio == u.bio
    ensures p.profilePhoto == u.profilePhoto && p.role == u.role
  {
    PublicUser(u.id, u.fullname, u.email, u.phoneNumber, u.bio, u.profilePhoto, u.role)
  }

  datatype LoginResult = LoginRefused(response: Response) | LoggedIn(response: Response, user: PublicUser)

  const BadCredentials: Response := Response(400, "Incorrect email or password.")

  /** `login`. `matches(plain, hash)` stands for `bcrypt.compare`; the token and cookie are
      not modelled. */
  function Login(users: seq<User>, email: Option<string>, password: Option<string>,
                 matches: (string, string) -> bool): (r: LoginResult)
    ensures !Truthy(email) || !Truthy(password) ==> r == LoginRefused(Response(400, "Something is missing"))
    ensures Truthy(email) && Truthy(password) && UserByEmail(users, email).None? ==> r == LoginRefused(BadCredentials)
    ensures Truthy(email) && Truthy(password) && UserByEmail(users, email).Some? ==>
              var u := users[UserByEmail(users, email).value];
              && (!matches(password.value, u.password) ==> r == LoginRefused(BadCredentials))
              && (matches(password.value, u.password) ==>
                    r == LoggedIn(Response(200, "Welcome back " + u.fullname), PublicView(u)))
  {
    if !Truthy(email) || !Truthy(password) then LoginRefused(Response(400, "Something is missing"))
    else match UserByEmail(users, email)
      case None => LoginRefused(BadCredentials)
      case Some(k) =>
        if !matches(password.value, users[k].password) then LoginRefused(BadCredentials)
        else LoggedIn(Response(200, "Welcome back " + users[k].fullname), PublicView(users[k]))
  }

  /** Login succeeds exactly for a stored email whose hash matches the password, and the
      user it returns is that account; every other refusal after the field check is the
      same reply, so it does not reveal which of email and password was wrong. */
  lemma LoginSucceedsIff(users: seq<User>, email: string, password: string,
                         matches: (string, string) -> bool)
    requires email != "" && password != ""
    requires EmailsUnique(users)
    ensures Login(users, Some(email), Some(password), matches).LoggedIn? <==>
              exists i :: 0 <= i < |users| && users[i].email == email && matches(password, users[i].password)
    ensures Login(users, Some(email), Some(password), matches).LoginRefused? ==>
              Login(users, Some(email), Some(password), matches).response == BadCredentials
    ensures Login(users, Some(email), Some(password), matches).LoggedIn? ==>
              Login(users, Some(email), Some(password), matches).user.email == email
  {
    var r := Login(users, Some(email), Some(password), matches);
    var found := UserByEmail(users, Some(email));
    if found.Some? {
      var k := found.value;
      assert forall i :: 0 <= i < |users| && users[i].email == email ==> i == k;
    }
  }

  /** The user after `updateProfile`'s edits: fullname, phone number and bio are replaced
      only by a non-empty value, the password only by the hash of a non-empty one, and the
      photo only by an uploaded url. */
  function ProfileEdited(u: User, fullname: Option<string>, phoneNumber: Option<string>,
                         password: Option<string>, bio: Option<string>, photo: Option<string>,
                         hash: string -> string): (r: User)
    ensures r.id == u.id && r.email == u.email && r.role == u.role
    ensures r.fullname == (if Truthy(fullname) then fullname.value else u.fullname)
    ensures r.phoneNumber == (if Truthy(phoneNumber) then phoneNumber.value else u.phoneNumber)
    ensures r.bio == (if Truthy(bio) then bio else u.bio)
    ensures r.password == (if Truthy(password) then hash(password.value) else u.password)
    ensures r.profilePhoto == photo.GetOr(u.profilePhoto)
    ensures !Truthy(fullname) && !Truthy(phoneNumber) && !Truthy(password) && !Truthy(bio) && photo.None? ==> r == u
  {
    u.(fullname := if Truthy(fullname) then fullname.value else u.fullname,
       phoneNumber := if Truthy(phoneNumber) then phoneNumber.value else u.phoneNumber,
       bio := if Truthy(bio) then bio else u.bio,
       password := if Truthy(password) then hash(password.value) else u.password,
       profilePhoto := photo.GetOr(u.profilePhoto))
  }

  /** `updateProfile` for the authenticated user `userId`. A failed upload, or a save the
      validators refuse, answers 500 and stores nothing. */
  method UpdateProfile(db: Db, userId: Id, fullname: Option<string>, phoneNumber: Option<string>,
                       password: Option<string>, bio: Option<string>, upload: Upload,
                       hash: string -> string) returns (resp: Response)
    requires db.Valid()
    modifies db
    ensures db.Valid()
    ensures UserById(old(db.users), userId).None? ==>
              resp == Response(400, "User not found.") && db.Snapshot() == old(db.Snapshot())
    ensures UserById(old(db.users), userId).Some? && upload.UploadFailed? ==>
              resp == Response(500, "Internal server error.") && db.Snapshot() == old(db.Snapshot())
    ensures UserById(old(db.users), userId).Some? && !upload.UploadFailed? ==>
              var k := UserById(old(db.users), userId).value;
              var u := ProfileEdited(old(db.users)[k], fullname, phoneNumber, password, bio,
                                     if upload.Uploaded? then Some(upload.url) else None, hash);
              && (!UserValid(u) ==> resp == Response(500, "Internal server error.") && db.Snapshot() == old(db.Snapshot()))
              && (UserValid(u) ==>
                    && resp == Response(200, "Profile updated successfully.")
                    && db.users == old(db.users)[k := u]
                    && db.Snapshot() == old(db.Snapshot()).(users := db.users))
  {
    var found := UserById(db.users, userId);
    if found.None? {
      return Response(400, "User not found.");
    }
    if upload.UploadFailed? {
      return Response(500, "Internal server error.");
    }
    var k := found.value;
    var u := ProfileEdited(db.users[k], fullname, phoneNumber, password, bio,
                           if upload.Uploaded? then Some(upload.url) else None, hash);
    if !UserValid(u) {
      return Response(500, "Internal server error.");
    }
    db.users := db.users[k := u];
    return Response(200, "Profile updated successfully.");
  }

  /** `promoteToAdmin` (`role` Admin) and `demoteFromAdmin` (`role` Cook): only the role
      changes. */
  method SetRole(db: Db, userId: Id, role: Role) returns (resp: Response)
    requires db.Valid()
    modifies db
    ensures db.Valid()
    ensures UserById(old(db.users), userId).None? ==>
              resp == Response(404, "User not found") && db.Snapshot() == old(db.Snapshot())
    ensures UserById(old(db.users), userId).Some? ==>
              var k := UserById(old(db.users), userId).value;
              && resp == Response(200, old(db.users)[k].fullname + RoleMessage(role))
              && db.users == old(db.users)[k := old(db.users)[k].(role := role)]
              && db.Snapshot() == old(db.Snapshot()).(users := db.users)
  {
    var found := UserById(db.users, userId);
    if found.None? {
      return Response(404, "User not found");
    }
    var k := found.value;
    resp := Response(200, db.users[k].fullname + RoleMessage(role));
    db.users := db.users[k := db.users[k].(role := role)];
  }

  function RoleMessage(role: Role): string
  {
    match role
    case Admin => " promoted to admin successfully"
    case Cook => " demoted to cook successfully"
  }

  method PromoteToAdmin(db: Db, userId: Id) returns (resp: Response)
    requires db.Valid()
    modifies db
    ensures db.Valid()
    ensures UserById(old(db.users), userId).None? ==>
              resp == Response(404, "User not found") && db.Snapshot() == old(db.Snapshot())
    ensures UserById(old(db.users), userId).Some? ==>
              var k := UserById(old(db.users), userId).value;
              && resp == Response(200, old(db.users)[k].fullname + " promoted to admin successfully")
              && db.users == old(db.users)[k := old(db.users)[k].(role := Admin)]
              && db.Snapshot() == old(db.Snapshot()).(users := db.users)
  {
    resp := SetRole(db, userId, Admin);
  }

  method DemoteFromAdmin(db: Db, userId: Id) returns (resp: Response)
    requires db.Valid()
    modifies db
    ensures db.Valid()
    ensures UserById(old(db.users), userId).None? ==>
              resp == Response(404, "User not found") && db.Snapshot() == old(db.Snapshot())
    ensures UserById(old(db.users), userId).Some? ==>
              var k := UserById(old(db.users), userId).value;
              && resp == Response(200, old(db.users)[k].fullname + " demoted to cook successfully")
              && db.users == old(db.users)[k := old(db.users)[k].(role := Cook)]
              && db.Snapshot() == old(db.Snapshot()).(users := db.users)
  {
    resp := SetRole(db, userId, Cook);
  }
}
