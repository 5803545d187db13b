/** The staff user document and its two roles. */
module UserModel {
  import opened Common

  datatype Role = Admin | Cook

  function RoleName(r: Role): string
  {
    match r
    case Admin => "admin"
    case Cook => "cook"
  }

  /** The schema's `role` enum. */
  function ParseRole(s: string): (r: Option<Role>)
    ensures r.Some? <==> s == "admin" || s == "cook"
    ensures r.Some? ==> RoleName(r.value) == s
  {
    if s == "admin" then Some(Admin)
    else if s == "cook" then Some(Cook)
    else None
  }

  /** `password` holds the stored hash. */
  datatype User = User(
    id: Id,
    fullname: string,
    email: string,
    phoneNumber: string,
    password: string,
    role: Role,
    bio: Option<string>,
    profilePhoto: string)

  /** Required strings: fullname, email, phoneNumber and the password hash. */
  predicate UserValid(u: User)
  {
    u.fullname != "" && u.email != "" && u.phoneNumber != "" && u.password != ""
  }

  /** What `User.create(fields)` stores: `None` when a required field is missing or "",
      or the role is unknown. The role defaults to "admin" and the photo to "". */
  function CreateUser(id: Id, fullname: Option<string>, email: Option<string>,
                      phoneNumber: Option<string>, password: string, role: Option<string>,
                      profilePhoto: Option<string>): (r: Option<User>)
    ensures r.Some? <==> Truthy(fullname) && Truthy(email) && Truthy(phoneNumber) && password != ""
                         && (role.Some? ==> ParseRole(role.value).Some?)
    ensures r.Some? ==> UserValid(r.value) && r.value.id == id
    ensures r.Some? ==> Some(r.value.fullname) == fullname && Some(r.value.email) == email
    ensures r.Some? ==> Some(r.value.phoneNumber) == phoneNumber && r.value.password == password
    ensures r.Some? ==> RoleName(r.value.role) == role.GetOr("admin")
    ensures r.Some? ==> r.value.profilePhoto == profilePhoto.GetOr("") && r.value.bio.None?
  {
    var rl := if role.Some? then ParseRole(role.value) else Some(Admin);
    if !Truthy(fullname) || !Truthy(email) || !Truthy(phoneNumber) || password == "" || rl.None? then None
    else Some(User(id, fullname.value, email.value, phoneNumber.value, password, rl.value, None,
                   profilePhoto.GetOr("")))
  }
}
