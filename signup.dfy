/** The staff sign-up form: its validation schema and the register request it sends. */
module SignupForm {
  import opened Common
  import opened UserModel
  import opened UserController

  /** The form values; `hasImage` says whether a file was chosen. */
  datatype SignupValues = SignupValues(fullname: string, email: string, phoneNumber: string, password: string,
                                       role: string, hasImage: bool)

  const InitialValues := SignupValues("", "", "", "", "", false)

  /** Required, 3 to 50 characters. */
  predicate FullnameOk(fullname: string)
  {
    fullname != "" && 3 <= |fullname| <= 50
  }

  /** Required; the address format check is not modelled. */
  predicate EmailOk(email: string)
  {
    email != ""
  }

  /** Required, exactly ten decimal digits. */
  predicate PhoneOk(phoneNumber: string)
  {
    phoneNumber != "" && |phoneNumber| == 10 && forall i :: 0 <= i < |phoneNumber| ==> IsDigit(phoneNumber[i])
  }

  /** Required, at least 6 characters. */
  predicate PasswordOk(password: string)
  {
    password != "" && |password| >= 6
  }

  predicate RoleOk(role: string)
  {
    role != ""
  }

  datatype Field = FullnameField | EmailField | PhoneField | PasswordField | RoleField

  /** The fields the schema reports; the image may be absent. */
  function InvalidFields(v: SignupValues): (r: set<Field>)
    ensures FullnameField in r <==> !FullnameOk(v.fullname)
    ensures EmailField in r <==> !EmailOk(v.email)
    ensures PhoneField in r <==> !PhoneOk(v.phoneNumber)
    ensures PasswordField in r <==> !PasswordOk(v.password)
    ensures RoleField in r <==> !RoleOk(v.role)
  {
    (if FullnameOk(v.fullname) then {} else {FullnameField})
    + (if EmailOk(v.email) then {} else {EmailField})
    + (if PhoneOk(v.phoneNumber) then {} else {PhoneField})
    + (if PasswordOk(v.password) then {} else {PasswordField})
    + (if RoleOk(v.role) then {} else {RoleField})
  }

  lemma InitialValuesRejected()
    ensures InvalidFields(InitialValues) == {FullnameField, EmailField, PhoneField, PasswordField, RoleField}
  {
  }

  /** The ten-digit rule, spelled out: "9800000000" passes, nine digits or a letter fail. */
  lemma PhoneRuleExamples()
    ensures PhoneOk("9800000000")
    ensures !PhoneOk("980000000")
    ensures !PhoneOk("98000000a0")
  {
    assert !IsDigit("98000000a0"[8]);
  }

  /** The submit appends only the non-empty values, so an empty field arrives absent. */
  function Sent(value: string): (r: Option<string>)
    ensures r.Some? <==> value != ""
    ensures r.Some? ==> r.value == value
  {
    if value != "" then Some(value) else None
  }

  /** A form that passes its schema, with either role the schema accepts, yields a user
      document that is a cook account, provided the password hashes to a non-empty
      string. Whether registration stores it (the email must be unused) is not part of
      this lemma. */
  lemma SubmittableFormCreatesCook(v: SignupValues, id: Id, hash: string -> string, photo: string)
    requires InvalidFields(v) == {} && (v.role == "cook" || v.role == "admin") && hash(v.password) != ""
    ensures var u := CreateUser(id, Sent(v.fullname), Sent(v.email), Sent(v.phoneNumber), hash(v.password),
                                Some(RegisteredRole(Sent(v.role))), Some(photo));
            u.Some? && u.value.role == Cook && u.value.phoneNumber == v.phoneNumber
  {
    RegisteredNeverAdmin(id, Sent(v.fullname), Sent(v.email), Sent(v.phoneNumber), hash(v.password),
                         Sent(v.role), Some(photo));
  }
}
