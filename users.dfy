/**
 * The user controller: registration of a student or teacher account, login, and the profile
 * update. Password hashing and comparison (bcrypt) are the parameters `hash` and `matches`.
 */
module Users {
  import opened Wrappers
  import opened JsStrings
  import opened Schema
  import opened Store
  import opened Http

  /** The body of `POST /api/users/register`; a field the client leaves out is `None`. */
  datatype RegisterRequest = RegisterRequest(
    name: Option<string>,
    email: Option<string>,
    password: Option<string>,
    role: Option<string>,
    phone: Option<string>,
    rollNumber: Option<string>,
    studentClass: Option<string>,
    designation: Option<string>,
    employeeId: Option<string>)

  /** The role the request names, if it is one of the two the handler accepts. */
  function RequestedRole(req: RegisterRequest): (r: Option<Role>)
    ensures r == Some(Student) <==> req.role == Some("student")
    ensures r == Some(Teacher) <==> req.role == Some("teacher")
  {
    if req.role.Some? then ParseRole(req.role.value) else None
  }

  /** The role-specific fields the handler insists on before it builds the record. */
  predicate HasRoleFields(req: RegisterRequest, role: Role) {
    match role
    case Student => Truthy(req.rollNumber) && Truthy(req.studentClass)
    case Teacher => Truthy(req.designation) && Truthy(req.employeeId)
  }

  /**
   * The record handed to `User.create`: the base fields (name, email, hashed password, role,
   * phone) plus the fields of the chosen role only. A missing name or email becomes the empty
   * string, which the schema's `required` validator then rejects.
   */
  function RegisteredUser(id: Id, role: Role, req: RegisterRequest, hash: string -> string): (u: User)
    requires req.password.Some? && req.phone.Some?
    ensures u.id == id && u.role == role && u.password == hash(req.password.value)
    ensures u.name == req.name.GetOr("") && u.email == req.email.GetOr("") && u.phone == req.phone.value
    ensures role == Student ==>
              u.rollNumber == req.rollNumber && u.studentClass == req.studentClass
              && u.designation.None? && u.employeeId.None?
    ensures role == Teacher ==>
              u.designation == req.designation && u.employeeId == req.employeeId
              && u.rollNumber.None? && u.studentClass.None?
  {
    var base := User(id, req.name.GetOr(""), req.email.GetOr(""), hash(req.password.value), role,
                     req.phone.value, None, None, None, None);
    match role
    case Student => base.(rollNumber := req.rollNumber, studentClass := req.studentClass)
    case Teacher => base.(designation := req.designation, employeeId := req.employeeId)
  }

  /** Once the role checks pass, the record is valid exactly when name, email and hash are
      non-empty: every other required field has been checked by the handler already. */
  lemma RegisteredUserValid(id: Id, role: Role, req: RegisterRequest, hash: string -> string)
    requires req.password.Some? && Truthy(req.phone) && HasRoleFields(req, role)
    ensures ValidUser(RegisteredUser(id, role, req, hash)) <==>
              Truthy(req.name) && Truthy(req.email) && hash(req.password.value) != ""
  {
  }

  /**
   * `registerUser`. The checks run in this order: an existing email (400), a missing phone
   * (400), then inside the `try`: hashing an absent password throws (500), an unknown role
   * (400), missing role fields (400), and finally `User.create`, whose validation errors and
   * duplicate keys both land in the generic 500.
   */
  method RegisterUser(db: Database, req: RegisterRequest, hash: string -> string) returns (status: Status)
    requires db.Valid()
    modifies db
    ensures db.Valid()
    ensures db.projects == old(db.projects) && db.documents == old(db.documents)
    ensures db.notifications == old(db.notifications)
    ensures UserByEmail(old(db.users), req.email).Some? ==> status == BadRequest
    ensures UserByEmail(old(db.users), req.email).None? && !Truthy(req.phone) ==> status == BadRequest
    ensures UserByEmail(old(db.users), req.email).None? && Truthy(req.phone) ==>
              && (req.password.None? ==> status == ServerError)
              && (req.password.Some? && RequestedRole(req).None? ==> status == BadRequest)
              && ((req.password.Some? && RequestedRole(req).Some? && !HasRoleFields(req, RequestedRole(req).value))
                    ==> status == BadRequest)
    ensures status == Created <==>
              && UserByEmail(old(db.users), req.email).None? && Truthy(req.phone) && req.password.Some?
              && RequestedRole(req).Some? && HasRoleFields(req, RequestedRole(req).value)
              && ValidUser(RegisteredUser(old(db.nextId), RequestedRole(req).value, req, hash))
              && NoCollision(old(db.users), RegisteredUser(old(db.nextId), RequestedRole(req).value, req, hash))
    ensures status == Created ==>
              db.users == old(db.users) + [RegisteredUser(old(db.nextId), RequestedRole(req).value, req, hash)]
    ensures status != Created ==> db.users == old(db.users) && db.nextId == old(db.nextId)
    ensures status in {Created, BadRequest, ServerError}
  {
    if UserByEmail(db.users, req.email).Some? {
      return BadRequest;
    }
    if !Truthy(req.phone) {
      return BadRequest;
    }
    if req.password.None? {
      return ServerError;  // bcrypt.hash(undefined) throws
    }
    var hashed := hash(req.password.value);
    var userData := User(db.nextId, req.name.GetOr(""), req.email.GetOr(""), hashed, Student,
                         req.phone.value, None, None, None, None);
    if req.role == Some("student") {
      if !Truthy(req.rollNumber) || !Truthy(req.studentClass) {
        return BadRequest;
      }
      userData := userData.(rollNumber := req.rollNumber, studentClass := req.studentClass);
    } else if req.role == Some("teacher") {
      if !Truthy(req.designation) || !Truthy(req.employeeId) {
        return BadRequest;
      }
      userData := userData.(role := Teacher, designation := req.designation, employeeId := req.employeeId);
    } else {
      return BadRequest;
    }
    assert userData == RegisteredUser(db.nextId, RequestedRole(req).value, req, hash);
    if !ValidUser(userData) || !NoCollision(db.users, userData) {
      return ServerError;  // ValidationError or duplicate key, both caught as 500
    }
    db.InsertUser(userData);
    status := Created;
  }

  // ---------------------------------------------------------------------------
  // Login

  /** The login response: the user's id (from which the token is signed), or a status. */
  datatype Login = LoggedIn(user: Id) | LoginRefused(status: Status)

  /**
   * `authUser`: the user with that email, and a password check that passes. There is no
   * `try`, so comparing an absent password (bcrypt throws) leaves the request unanswered.
   */
  function AuthUser(users: seq<User>, email: Option<string>, password: Option<string>,
                    matches: (string, string) -> bool): (r: Login)
    ensures r.LoggedIn? ==>
              password.Some? &&
              exists k :: (0 <= k < |users| && users[k].id == r.user && Some(users[k].email) == email
                           && matches(password.value, users[k].password))
    ensures r.LoginRefused? ==> r.status in {Unauthorized, Unhandled}
    ensures r == LoginRefused(Unhandled) <==> UserByEmail(users, email).Some? && password.None?
  {
    match UserByEmail(users, email)
    case None => LoginRefused(Unauthorized)
    case Some(k) =>
      if password.None? then LoginRefused(Unhandled)
      else if matches(password.value, users[k].password) then LoggedIn(users[k].id)
      else LoginRefused(Unauthorized)
  }

  /** With unique emails, login succeeds iff some user has the email and the password check
      passes for that user's hash, and it signs in that user. */
  lemma LoginIffCredentials(users: seq<User>, e: string, p: string, matches: (string, string) -> bool, k: nat)
    requires UniqueUsers(users)
    requires k < |users| && users[k].email == e
    ensures AuthUser(users, Some(e), Some(p), matches) ==
              if matches(p, users[k].password) then LoggedIn(users[k].id) else LoginRefused(Unauthorized)
  {
  }

  /** An email no user has is refused with 401, whatever the password. */
  lemma LoginUnknownEmail(users: seq<User>, e: string, p: Option<string>, matches: (string, string) -> bool)
    requires forall k :: 0 <= k < |users| ==> users[k].email != e
    ensures AuthUser(users, Some(e), p, matches) == LoginRefused(Unauthorized)
  {
  }

  // ---------------------------------------------------------------------------
  // Profile update

  /** `user.name = name || user.name; user.phone = phone || user.phone`. */
  function ApplyProfile(u: User, name: Option<string>, phone: Option<string>): (r: User)
    ensures r.id == u.id && r.email == u.email && r.password == u.password && r.role == u.role
    ensures r.rollNumber == u.rollNumber && r.studentClass == u.studentClass
    ensures r.designation == u.designation && r.employeeId == u.employeeId
    ensures r.name == if Truthy(name) then name.value else u.name
    ensures r.phone == if Truthy(phone) then phone.value else u.phone
    ensures ValidUser(u) ==> ValidUser(r)
  {
    u.(name := OrElse(name, u.name), phone := OrElse(phone, u.phone))
  }

  /** Sending the same update twice changes nothing the second time, and an update with
      neither field present leaves the user as it was. */
  lemma ApplyProfileIdempotent(u: User, name: Option<string>, phone: Option<string>)
    ensures ApplyProfile(ApplyProfile(u, name, phone), name, phone) == ApplyProfile(u, name, phone)
    ensures ApplyProfile(u, None, None) == u
    ensures ApplyProfile(u, Some(""), Some("")) == u
  {
  }

  /**
   * `updateUserProfile`. `req.user._id` is read before the `try`, so a token whose user no
   * longer exists leaves the request unanswered. The save cannot fail its validators: the new
   * name and phone are non-empty, so the `catch` with its 400 is not reachable here.
   */
  method UpdateUserProfile(db: Database, caller: Option<User>, name: Option<string>, phone: Option<string>)
    returns (status: Status)
    requires db.Valid()
    modifies db
    ensures db.Valid()
    ensures db.projects == old(db.projects) && db.documents == old(db.documents)
    ensures db.notifications == old(db.notifications) && db.nextId == old(db.nextId)
    ensures caller.None? ==> status == Unhandled && db.users == old(db.users)
    ensures caller.Some? && UserById(old(db.users), caller.value.id).None? ==>
              status == NotFound && db.users == old(db.users)
    ensures caller.Some? && UserById(old(db.users), caller.value.id).Some? ==>
              var k := UserById(old(db.users), caller.value.id).value;
              status == Ok && db.users == old(db.users)[k := ApplyProfile(old(db.users)[k], name, phone)]
  {
    if caller.None? {
      return Unhandled;
    }
    match UserById(db.users, caller.value.id)
    case None =>
      status := NotFound;
    case Some(k) =>
      var user := db.users[k];
      var updated := ApplyProfile(user, name, phone);
      UsersUpdate(db.users, k, updated, db.nextId);
      db.users := db.users[k := updated];
      status := Ok;
  }
}
