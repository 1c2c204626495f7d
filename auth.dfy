/**
 * The `protect` and `restrictTo` middleware and the route table that chains them in front of
 * each handler. JWT verification is the parameter `verify`: the user id a token carries, or
 * none when the token does not verify (bad signature, expired, malformed).
 */
module Auth {
  import opened Wrappers
  import opened JsStrings
  import opened Schema
  import opened Store
  import opened Http

  /** `authorization.split(' ')[1]`: the second space-separated segment of the header. */
  function BearerToken(authorization: string): (r: Option<string>)
    ensures r.Some? ==> ' ' !in r.value
  {
    Segment(authorization, ' ', 1)
  }

  /** A header made of a space-free scheme word, one space and a space-free token yields
      exactly that token. */
  lemma BearerTokenOf(scheme: string, token: string)
    requires ' ' !in scheme && ' ' !in token
    ensures BearerToken(scheme + " " + token) == Some(token)
  {
    assert scheme + " " + token == Join([scheme, token], ' ');
    SplitJoin([scheme, token], ' ');
  }

  /** `req.user` as `User.findById(id).select('-password')` loads it: the stored record with
      its password left out, or null when no user has that id. */
  function LoadUser(users: seq<User>, id: Id): (r: Option<User>)
    ensures r.Some? <==> exists k :: 0 <= k < |users| && users[k].id == id
    ensures r.Some? ==> r.value.id == id && r.value.password == ""
  {
    match UserById(users, id)
    case None => None
    case Some(k) => Some(users[k].(password := ""))
  }

  /** What `protect` decides: a 401; a 401 followed by a second `res.status(401).json(...)`,
      which throws ERR_HTTP_HEADERS_SENT inside the async middleware and so ends as an
      unhandled rejection; or `next()` with `req.user` set (possibly null). */
  datatype Gate = Denied(status: Status) | DeniedTwice | Proceed(user: Option<User>)

  /**
   * `protect`. A header that is absent or does not start with "Bearer" has no token and gets
   * 401. A missing or empty second segment makes `jwt.verify` throw: the `catch` sends 401,
   * and then the falsy token makes the final `if (!token)` send again, which throws. A
   * token that does not verify gets the `catch`'s 401 only. Otherwise the request proceeds,
   * with the user the token names loaded from the table.
   */
  function Protect(authorization: Option<string>, verify: string -> Option<Id>, users: seq<User>): (g: Gate)
    ensures g.Denied? ==> g.status == Unauthorized
    ensures g.DeniedTwice? <==>
      && authorization.Some? && StartsWith(authorization.value, "Bearer")
      && !Truthy(BearerToken(authorization.value))
    ensures g.Proceed? <==>
      && authorization.Some? && StartsWith(authorization.value, "Bearer")
      && Truthy(BearerToken(authorization.value))
      && verify(BearerToken(authorization.value).value).Some?
    ensures g.Proceed? ==> g.user == LoadUser(users, verify(BearerToken(authorization.value).value).value)
  {
    if authorization.None? || !StartsWith(authorization.value, "Bearer") then Denied(Unauthorized)
    else
      match BearerToken(authorization.value)
      case None => DeniedTwice
      case Some(token) =>
        if token == "" then DeniedTwice
        else
          match verify(token)
          case None => Denied(Unauthorized)
          case Some(id) => Proceed(LoadUser(users, id))
  }

  /** The header the client builds, `Bearer ${token}`, lets a verifying token through with
      the user it names. */
  lemma ProtectAcceptsIssuedToken(token: string, verify: string -> Option<Id>, users: seq<User>, id: Id)
    requires token != "" && ' ' !in token && verify(token) == Some(id)
    ensures Protect(Some("Bearer " + token), verify, users) == Proceed(LoadUser(users, id))
  {
    BearerTokenOf("Bearer", token);
    assert "Bearer" + " " + token == "Bearer " + token;
    assert ("Bearer " + token)[..6] == "Bearer";
  }

  /** The scheme check is a prefix test: "Bearerxyz t" is read as the token "t", the same as
      "Bearer t". */
  lemma ProtectIgnoresSchemeSuffix(suffix: string, token: string, verify: string -> Option<Id>, users: seq<User>)
    requires ' ' !in suffix && ' ' !in token
    ensures Protect(Some("Bearer" + suffix + " " + token), verify, users)
         == Protect(Some("Bearer " + token), verify, users)
  {
    BearerTokenOf("Bearer" + suffix, token);
    BearerTokenOf("Bearer", token);
    assert "Bearer" + " " + token == "Bearer " + token;
    assert ("Bearer" + suffix + " " + token)[..6] == "Bearer";
    assert ("Bearer " + token)[..6] == "Bearer";
  }

  /** A header that is just the scheme carries no token: it is refused with 401 whatever
      `verify` says, and the middleware then throws on its second send. */
  lemma ProtectRejectsBareScheme(verify: string -> Option<Id>, users: seq<User>)
    ensures Protect(Some("Bearer"), verify, users) == DeniedTwice
    ensures Protect(Some("Bearer "), verify, users) == DeniedTwice
  {
    assert forall i :: 0 <= i < 6 ==> "Bearer"[i] != ' ';
    SplitNoSeparator("Bearer", ' ');
    assert "Bearer "[..6] == "Bearer";
    SplitAfterPart("Bearer", "", ' ');
    assert "Bearer" + [' '] + "" == "Bearer ";
  }

  /** `restrictTo(role)`: proceeds iff `req.user` is set and has that role; otherwise 403. */
  function RestrictTo(role: Role, user: Option<User>): (ok: bool)
  {
    user.Some? && user.value.role == role
  }

  // ---------------------------------------------------------------------------
  // The route table

  datatype Route =
    // project routes
    | AllAssignments | SubmitProject | TeacherProjects | MentorResponse | SubmitRegistration
    | FinalRemarks | MyDashboard | UploadDocument | DownloadDocument | DeleteDocument
    | DocumentReview | Description
    // user routes
    | Register | Login | Profile | Notifications | MarkNotificationRead

  /** The middleware in front of a handler: none, `protect`, or `protect, restrictTo(role)`. */
  datatype Access = Public | Signed | RoleOnly(role: Role)

  function AccessOf(r: Route): Access {
    match r
    case AllAssignments => Signed
    case SubmitProject => RoleOnly(Student)
    case TeacherProjects => RoleOnly(Teacher)
    case MentorResponse => RoleOnly(Teacher)
    case SubmitRegistration => Public
    case FinalRemarks => RoleOnly(Teacher)
    case MyDashboard => RoleOnly(Student)
    case UploadDocument => RoleOnly(Student)
    case DownloadDocument => RoleOnly(Student)
    case DeleteDocument => RoleOnly(Student)
    case DocumentReview => RoleOnly(Teacher)
    case Description => RoleOnly(Student)
    case Register => Public
    case Login => Public
    case Profile => Signed
    case Notifications => Signed
    case MarkNotificationRead => Signed
  }

  /** The outcome of a route's middleware chain: refused with the status the client
      receives, or the handler runs with `req.user` (none on public routes). A `DeniedTwice`
      gate is the client's 401; the rejection that follows it is recorded by `Protect`. */
  datatype Admission = Refused(status: Status) | Admitted(user: Option<User>)

  function Admit(route: Route, authorization: Option<string>, verify: string -> Option<Id>,
                 users: seq<User>): (a: Admission)
    ensures a.Refused? ==> a.status == Unauthorized || a.status == Forbidden
    ensures AccessOf(route) == Public ==> a == Admitted(None)
    ensures AccessOf(route).RoleOnly? && a.Admitted? ==>
              a.user.Some? && a.user.value.role == AccessOf(route).role
  {
    match AccessOf(route)
    case Public => Admitted(None)
    case Signed =>
      (match Protect(authorization, verify, users)
       case Denied(s) => Refused(s)
       case DeniedTwice => Refused(Unauthorized)
       case Proceed(u) => Admitted(u))
    case RoleOnly(role) =>
      (match Protect(authorization, verify, users)
       case Denied(s) => Refused(s)
       case DeniedTwice => Refused(Unauthorized)
       case Proceed(u) => if RestrictTo(role, u) then Admitted(u) else Refused(Forbidden))
  }

  /** A role-restricted route answers 401 when `protect` refuses, 403 when the token is good
      but the user is missing or has the other role, and runs the handler otherwise. */
  lemma RoleRouteOutcomes(route: Route, authorization: Option<string>, verify: string -> Option<Id>,
                          users: seq<User>)
    requires AccessOf(route).RoleOnly?
    ensures var g := Protect(authorization, verify, users);
            var a := Admit(route, authorization, verify, users);
            && (!g.Proceed? <==> a == Refused(Unauthorized))
            && (a == Refused(Forbidden) <==> g.Proceed? && !RestrictTo(AccessOf(route).role, g.user))
            && (a.Admitted? <==> g.Proceed? && RestrictTo(AccessOf(route).role, g.user))
  {
  }

  /** The mentor-status, remarks, document-status and teacher-project routes run their
      handler only for a loaded teacher. */
  lemma TeacherRoutesAdmitOnlyTeachers(route: Route, authorization: Option<string>,
                                        verify: string -> Option<Id>, users: seq<User>)
    requires route in {TeacherProjects, MentorResponse, FinalRemarks, DocumentReview}
    ensures var a := Admit(route, authorization, verify, users);
            a.Admitted? ==> a.user.Some? && a.user.value.role == Teacher
  {
  }

  /** The dashboard, upload, download, delete, description and legacy submit routes run their
      handler only for a loaded student. */
  lemma StudentRoutesAdmitOnlyStudents(route: Route, authorization: Option<string>,
                                        verify: string -> Option<Id>, users: seq<User>)
    requires route in {SubmitProject, MyDashboard, UploadDocument, DownloadDocument, DeleteDocument, Description}
    ensures var a := Admit(route, authorization, verify, users);
            a.Admitted? ==> a.user.Some? && a.user.value.role == Student
  {
  }

  /** Register, login and the combined registration need no header at all. */
  lemma PublicRoutesAdmitAnyone(route: Route, authorization: Option<string>,
                                verify: string -> Option<Id>, users: seq<User>)
    requires route in {SubmitRegistration, Register, Login}
    ensures Admit(route, authorization, verify, users) == Admitted(None)
  {
  }

  /** The feed, profile and notification routes run their handler for any verifying token,
      also when the user it names no longer exists (`req.user` is then null). */
  lemma SignedRoutesAdmitDeletedUsers(route: Route, token: string, verify: string -> Option<Id>,
                                      users: seq<User>, id: Id)
    requires route in {AllAssignments, Profile, Notifications, MarkNotificationRead}
    requires token != "" && ' ' !in token && verify(token) == Some(id)
    requires forall k :: 0 <= k < |users| ==> users[k].id != id
    ensures Admit(route, Some("Bearer " + token), verify, users) == Admitted(None)
  {
    ProtectAcceptsIssuedToken(token, verify, users, id);
  }
}
