/** The accounts app: users, who is making a request, the permission classes the apps share
    (accounts/permissions.py and the framework's IsAuthenticated family), and registration. */
module Accounts {
  import opened Common

  /** A user row. `password` holds what registration hands to `set_password`; `role` is the
      attribute IsNGO reads; `details` are the other profile fields, keyed by field name. */
  datatype User = User(
    id: Id,
    username: string,
    email: string,
    password: string,
    isStaff: bool,
    isActive: bool,
    role: string,
    details: map<string, string>)

  /** `request.user`: the anonymous user, or an authenticated user row. */
  datatype Requester = Anonymous | Authenticated(user: User)

  /** `obj.<field> == request.user` for a foreign key holding `uid`: model instances compare by
      primary key, and the anonymous user equals no row. */
  predicate IsRequester(r: Requester, uid: Id)
  {
    r.Authenticated? && r.user.id == uid
  }

  /** How a refused permission is reported: a request without credentials is told to
      authenticate, an authenticated one is told it is not permitted. */
  function Deny(r: Requester): (e: Error)
    ensures e == NotAuthenticated <==> r.Anonymous?
    ensures e == PermissionDenied <==> r.Authenticated?
  {
    if r.Anonymous? then NotAuthenticated else PermissionDenied
  }

  // ---------------------------------------------------------------------------------------
  // The framework's permission classes used by the views

  /** IsAuthenticated. */
  predicate IsAuthenticated(r: Requester)
  {
    r.Authenticated?
  }

  /** IsAuthenticatedOrReadOnly: reads for everyone, anything else for authenticated users. */
  predicate IsAuthenticatedOrReadOnly(m: Method, r: Requester)
  {
    IsSafe(m) || r.Authenticated?
  }

  // ---------------------------------------------------------------------------------------
  // accounts/permissions.py

  /** IsAuthenticatedOrCreateOnly.has_permission. `action` is the view's action name when the
      view has one. */
  function IsAuthenticatedOrCreateOnly(m: Method, action: Option<string>, r: Requester): (allowed: bool)
    ensures m == POST ==> allowed
    ensures action == Some("create") || action == Some("register") ==> allowed
    ensures m != POST && action != Some("create") && action != Some("register") ==>
              (allowed <==> r.Authenticated?)
  {
    if m == POST then true
    else if action.Some? && action.value in ["create", "register"] then true
    else r.Authenticated?
  }

  /** IsOwner.has_object_permission: the object is the requesting user's own row. */
  function IsOwner(obj: User, r: Requester): (allowed: bool)
    ensures allowed <==> r.Authenticated? && r.user.id == obj.id
  {
    IsRequester(r, obj.id)
  }

  /** IsNGO.has_permission. */
  function IsNGO(r: Requester): (allowed: bool)
    ensures allowed <==> r.Authenticated? && r.user.role == "ngo"
  {
    r.Authenticated? && r.user.role == "ngo"
  }

  /** IsAdminUserOrReadOnly.has_permission. */
  function IsAdminUserOrReadOnly(m: Method, r: Requester): (allowed: bool)
    ensures IsSafe(m) ==> allowed
    ensures !IsSafe(m) ==> (allowed <==> r.Authenticated? && r.user.isStaff)
  {
    if IsSafe(m) then true else r.Authenticated? && r.user.isStaff
  }

  /** The staff flag alone never admits an anonymous writer, and a read needs nothing. */
  lemma AdminOrReadOnlyNeedsStaffToWrite(m: Method, r: Requester)
    requires !IsSafe(m) && IsAdminUserOrReadOnly(m, r)
    ensures r.Authenticated? && r.user.isStaff
  {
  }

  // ---------------------------------------------------------------------------------------
  // accounts/serializers.py: RegisterSerializer

  /** The registration payload fields, in declaration order (the picture upload is not modelled). */
  const RegisterFields: seq<string> :=
    ["email", "password", "confirm_password", "first_name", "last_name", "phone",
     "facebook_account", "location", "occupation"]

  /** The fields the serializer requires: `email` (a required model field) and both passwords. */
  const RequiredRegisterFields: seq<string> := ["email", "password", "confirm_password"]

  const RequiredMessage := "This field is required."
  const PasswordMismatch := "Passwords do not match."

  /** One "required" error per missing required field, in field order. */
  function MissingFields(data: map<string, string>, fields: seq<string>): (errs: seq<FieldError>)
    ensures forall e :: e in errs ==> e.field in fields && e.field !in data && e.message == RequiredMessage
    ensures forall f :: f in fields && f !in data ==> FieldError(f, RequiredMessage) in errs
  {
    if fields == [] then []
    else (if fields[0] in data then [] else [FieldError(fields[0], RequiredMessage)])
         + MissingFields(data, fields[1..])
  }

  const EmailTaken := "user with this email address already exists."

  /** The errors of the `email` field: required, and unique among the users' addresses (the
      validator the serializer derives from the model's `unique=True`). */
  function EmailErrors(data: map<string, string>, emails: set<string>): (errs: seq<FieldError>)
    ensures errs == [] <==> "email" in data && data["email"] !in emails
    ensures "email" !in data ==> errs == [FieldError("email", RequiredMessage)]
    ensures "email" in data && data["email"] in emails ==> errs == [FieldError("email", EmailTaken)]
  {
    if "email" !in data then [FieldError("email", RequiredMessage)]
    else if data["email"] in emails then [FieldError("email", EmailTaken)]
    else []
  }

  /** The payload with the keys that are not registration fields dropped. */
  function KnownFields(input: map<string, string>): (data: map<string, string>)
    ensures forall f :: f in data <==> f in input && f in RegisterFields
    ensures forall f :: f in data ==> data[f] == input[f]
    ensures forall f :: f in RequiredRegisterFields ==> (f in data <==> f in input)
  {
    map f | f in input && f in RegisterFields :: input[f]
  }

  /** The password fields' errors: each is required. */
  function PasswordErrors(data: map<string, string>): (errs: seq<FieldError>)
    ensures errs == [] <==> "password" in data && "confirm_password" in data
    ensures forall e :: e in errs ==> e.field in RequiredRegisterFields && e.field !in data && e.message == RequiredMessage
    ensures forall f :: f in ["password", "confirm_password"] && f !in data ==> FieldError(f, RequiredMessage) in errs
  {
    var errs := MissingFields(data, ["password", "confirm_password"]);
    assert errs != [] ==> errs[0] in errs;
    errs
  }

  /** Every field the serializer requires is in the payload. */
  predicate HasRequiredFields(input: map<string, string>)
  {
    "email" in input && "password" in input && "confirm_password" in input
  }

  /** What the field errors of a registration payload say: one per missing required field, the
      taken address, and nothing that is not a required field's. */
  lemma FieldErrorsOfRegistration(input: map<string, string>, emails: set<string>)
    ensures var data := KnownFields(input);
            var errs := EmailErrors(data, emails) + PasswordErrors(data);
            && (errs == [] <==> HasRequiredFields(input) && input["email"] !in emails)
            && (forall f :: f in RequiredRegisterFields && f !in input ==> FieldError(f, RequiredMessage) in errs)
            && (forall e :: e in errs ==> e.field in RequiredRegisterFields)
            && ("email" in input && input["email"] in emails ==> FieldError("email", EmailTaken) in errs)
  {
    var data := KnownFields(input);
    var emailErrs := EmailErrors(data, emails);
    var passwordErrs := PasswordErrors(data);
    var errs := emailErrs + passwordErrs;
    assert forall e :: e in errs <==> e in emailErrs || e in passwordErrs;
    assert "email" !in data ==> FieldError("email", RequiredMessage) in emailErrs;
  }

  /** Field validation then `validate`: unknown keys are dropped; a missing required field or an
      address already in use is reported per field, and only when every field is valid are
      differing passwords refused; otherwise the data comes back unchanged. */
  function ValidateRegistration(input: map<string, string>, emails: set<string>): (r: Result<map<string, string>, Error>)
    ensures r.Ok? <==> HasRequiredFields(input)
                       && input["email"] !in emails
                       && input["password"] == input["confirm_password"]
    ensures r.Ok? ==> r.value == KnownFields(input)
    ensures r.Err? && "email" in input && input["email"] in emails ==>
              r.error.ValidationFailed? && FieldError("email", EmailTaken) in r.error.errors
    ensures !HasRequiredFields(input) ==>
              r.Err? && r.error.ValidationFailed?
              && (forall f :: f in RequiredRegisterFields && f !in input ==> FieldError(f, RequiredMessage) in r.error.errors)
              && (forall e :: e in r.error.errors ==> e.field in RequiredRegisterFields)
    ensures r.Err? && HasRequiredFields(input) && input["email"] !in emails ==>
              r.error == ValidationFailed([FieldError("non_field_errors", PasswordMismatch)])
  {
    var data := KnownFields(input);
    var errs := EmailErrors(data, emails) + PasswordErrors(data);
    FieldErrorsOfRegistration(input, emails);
    if errs != [] then
      Err(ValidationFailed(errs))
    else if data["password"] != data["confirm_password"] then
      Err(ValidationFailed([FieldError("non_field_errors", PasswordMismatch)]))
    else
      Ok(data)
  }

  /** The validated data holds the registration fields of the payload, unchanged, and nothing
      else. */
  lemma ValidatedKeepsKnownFields(input: map<string, string>, emails: set<string>)
    requires ValidateRegistration(input, emails).Ok?
    ensures var data := ValidateRegistration(input, emails).value;
            data.Keys <= input.Keys
            && (forall f :: f in data ==> f in RegisterFields && data[f] == input[f])
            && (forall f :: f in input && f in RegisterFields ==> f in data)
  {
  }

  /** RegisterSerializer.create: `confirm_password` is popped, the row is built from the remaining
      fields, the password is set and the account starts inactive. `username` is not a
      registration field, so the row keeps the model's empty default. */
  function NewUser(data: map<string, string>, id: Id): (u: User)
    requires "email" in data && "password" in data
    ensures u.id == id && !u.isActive && !u.isStaff && u.username == ""
    ensures u.email == data["email"] && u.password == data["password"]
    ensures "confirm_password" !in u.details
    ensures forall f :: f in data && f !in {"email", "password", "confirm_password"} ==>
              f in u.details && u.details[f] == data[f]
    ensures u.details.Keys <= data.Keys
  {
    var fields := data - {"confirm_password"};
    User(id, "", fields["email"], fields["password"], false, false, "", fields - {"email", "password"})
  }

  /** A registration that validates always yields an inactive user. */
  lemma RegisteredUserInactive(input: map<string, string>, emails: set<string>, id: Id)
    requires ValidateRegistration(input, emails).Ok?
    ensures var data := ValidateRegistration(input, emails).value;
            "email" in data && "password" in data && !NewUser(data, id).isActive
  {
  }

  /** Registration never sets `username`, so any two registered users share the same one, and
      the model's unique `username` refuses the second. */
  lemma RegisteredUsernamesClash(a: map<string, string>, b: map<string, string>, i: Id, j: Id)
    requires "email" in a && "password" in a && "email" in b && "password" in b
    ensures NewUser(a, i).username == NewUser(b, j).username == ""
  {
  }

  /** The email addresses in use. */
  function Emails(users: map<Id, User>): set<string>
  {
    set k | k in users :: users[k].email
  }

  /** Whether some user already has the username `name`. */
  predicate UsernameTaken(users: map<Id, User>, name: string)
  {
    exists k :: k in users && users[k].username == name
  }
}
