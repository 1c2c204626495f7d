/**
 * The project controller. Each handler walks its guards in the order the controller does,
 * returns the status it sends, and leaves the tables as the controller's writes leave them.
 * Handlers behind `restrictTo` receive the loaded user as `caller`: the middleware only lets a
 * request through with a user present. A path id is `None` when it is not a valid ObjectId,
 * which makes `findById` throw a CastError.
 */
module Projects {
  import opened Wrappers
  import opened Lists
  import opened JsStrings
  import opened Schema
  import opened Store
  import opened Http

  // ---------------------------------------------------------------------------
  // POST /api/projects/submit-registration

  /** The body of the combined registration; members left out are `None`. */
  datatype RegistrationRequest = RegistrationRequest(
    name: Option<string>,
    email: Option<string>,
    password: Option<string>,
    phone: Option<string>,
    rollNumber: Option<string>,
    studentClass: Option<string>,
    projectTitle: Option<string>,
    mentorName: Option<string>,
    members: Option<seq<GroupMember>>)

  /** The eight fields checked for truthiness before anything else. */
  predicate HasRequiredFields(req: RegistrationRequest) {
    && Truthy(req.name) && Truthy(req.email) && Truthy(req.password) && Truthy(req.phone)
    && Truthy(req.rollNumber) && Truthy(req.studentClass) && Truthy(req.projectTitle)
    && Truthy(req.mentorName)
  }

  /** The student record the registration creates. */
  function RegistrationStudent(id: Id, req: RegistrationRequest, hash: string -> string): (u: User)
    requires HasRequiredFields(req)
    ensures u.id == id && u.role == Student && u.email == req.email.value && u.name == req.name.value
    ensures u.rollNumber == req.rollNumber && u.studentClass == req.studentClass
    ensures u.designation.None? && u.employeeId.None?
    ensures ValidUser(u) <==> hash(req.password.value) != ""
  {
    User(id, req.name.value, req.email.value, hash(req.password.value), Student, req.phone.value,
         req.rollNumber, req.studentClass, None, None)
  }

  /** The project the registration creates: empty description, the resolved teacher as
      mentor and as requested name, the given members or none, pending. */
  function RegistrationProject(id: Id, req: RegistrationRequest, student: Id, mentor: User): (p: Project)
    requires HasRequiredFields(req)
    ensures p.id == id && p.student == student && p.title == req.projectTitle.value
    ensures p.description == "" && p.finalRemarks == ""
    ensures p.mentor == Some(mentor.id) && p.requestedMentorName == mentor.name
    ensures p.mentorStatus == Pending
    ensures p.members == if req.members.Some? then req.members.value else []
  {
    NewProject(id, req.projectTitle.value, Some(""), student, req.members.GetOr([]), mentor.name)
      .(mentor := Some(mentor.id))
  }

  /** Every member of the request has all five fields, so `Project.create` validates. */
  predicate MembersValid(req: RegistrationRequest) {
    forall k :: 0 <= k < |req.members.GetOr([])| ==> ValidMember(req.members.GetOr([])[k])
  }

  lemma RegistrationProjectValid(id: Id, req: RegistrationRequest, student: Id, mentor: User)
    requires HasRequiredFields(req) && mentor.name != ""
    ensures ValidProject(RegistrationProject(id, req, student, mentor)) <==> MembersValid(req)
  {
  }

  function ProjectRequestMessage(title: string, studentName: string): string {
    "New project request: \"" + title + "\" by " + studentName + "."
  }

  /** The checks before the first write pass, and `User.create` accepts the student: the
      fields are present, the email is free, the teacher exists, and the record validates
      and collides with no stored user. */
  predicate StudentAccepted(users: seq<User>, nextId: Id, req: RegistrationRequest, hash: string -> string) {
    && HasRequiredFields(req) && UserByEmail(users, req.email).None?
    && TeacherByName(users, req.mentorName.value).Some?
    && hash(req.password.value) != ""
    && NoCollision(users, RegistrationStudent(nextId, req, hash))
  }

  /**
   * `submitRegistrationAndProject`. Missing fields (400), a taken email (400) and an unknown
   * teacher name (400) stop the request before anything is written. A student record that
   * fails validation or collides on a unique index is a 400 with nothing written. The three
   * creates are not one transaction: a member list that fails validation is a 400 after the
   * student has been stored, so that user stays without a project.
   */
  method SubmitRegistrationAndProject(db: Database, req: RegistrationRequest, hash: string -> string, now: nat)
    returns (status: Status)
    requires db.Valid()
    modifies db
    ensures db.Valid()
    ensures db.documents == old(db.documents)
    ensures status in {Created, BadRequest}
    ensures !HasRequiredFields(req) ==> status == BadRequest
    ensures HasRequiredFields(req) && UserByEmail(old(db.users), req.email).Some? ==> status == BadRequest
    ensures HasRequiredFields(req) && TeacherByName(old(db.users), req.mentorName.value).None? ==>
              status == BadRequest
    ensures status == Created <==> StudentAccepted(old(db.users), old(db.nextId), req, hash) && MembersValid(req)
    ensures !StudentAccepted(old(db.users), old(db.nextId), req, hash) ==>
              db.users == old(db.users) && db.projects == old(db.projects)
              && db.notifications == old(db.notifications)
    ensures StudentAccepted(old(db.users), old(db.nextId), req, hash) ==>
              db.users == old(db.users) + [RegistrationStudent(old(db.nextId), req, hash)]
    ensures StudentAccepted(old(db.users), old(db.nextId), req, hash) && !MembersValid(req) ==>
              db.projects == old(db.projects) && db.notifications == old(db.notifications)
    ensures status == Created ==>
              var mentor := old(db.users)[TeacherByName(old(db.users), req.mentorName.value).value];
              var project := RegistrationProject(old(db.nextId) + 1, req, old(db.nextId), mentor);
              && db.projects == old(db.projects) + [project]
              && db.notifications == old(db.notifications) + [
                   NewNotification(old(db.nextId) + 2, mentor.id, old(db.nextId), ProjectRequest, Some(project.id),
                                   None, ProjectRequestMessage(req.projectTitle.value, req.name.value), now)]
  {
    if !HasRequiredFields(req) {
      return BadRequest;
    }
    if UserByEmail(db.users, req.email).Some? {
      return BadRequest;
    }
    var found := TeacherByName(db.users, req.mentorName.value);
    if found.None? {
      return BadRequest;
    }
    var mentor := db.users[found.value];
    var student := RegistrationStudent(db.nextId, req, hash);
    if !ValidUser(student) || !NoCollision(db.users, student) {
      return BadRequest;  // ValidationError or duplicate key (11000)
    }
    status := CreateStudentAndProject(db, req, hash, mentor, now);
  }

  /** The writes of the registration once the student is accepted: the student, then the
      project (which may fail validation, leaving the student behind), then the mentor's
      notification. */
  method CreateStudentAndProject(db: Database, req: RegistrationRequest, hash: string -> string,
                                 mentor: User, now: nat) returns (status: Status)
    requires db.Valid() && HasRequiredFields(req) && mentor.name != ""
    requires ValidUser(RegistrationStudent(db.nextId, req, hash))
    requires NoCollision(db.users, RegistrationStudent(db.nextId, req, hash))
    modifies db
    ensures db.Valid()
    ensures db.documents == old(db.documents)
    ensures db.users == old(db.users) + [RegistrationStudent(old(db.nextId), req, hash)]
    ensures status == Created <==> MembersValid(req)
    ensures status != Created ==>
              status == BadRequest && db.projects == old(db.projects) && db.notifications == old(db.notifications)
    ensures status == Created ==>
              var project := RegistrationProject(old(db.nextId) + 1, req, old(db.nextId), mentor);
              && db.projects == old(db.projects) + [project]
              && db.notifications == old(db.notifications) + [
                   NewNotification(old(db.nextId) + 2, mentor.id, old(db.nextId), ProjectRequest, Some(project.id),
                                   None, ProjectRequestMessage(req.projectTitle.value, req.name.value), now)]
  {
    var studentId := db.nextId;
    var student := RegistrationStudent(studentId, req, hash);
    db.InsertUser(student);

    var projectId := db.nextId;
    var project := RegistrationProject(projectId, req, studentId, mentor);
    RegistrationProjectValid(projectId, req, studentId, mentor);
    if !ValidProject(project) {
      return BadRequest;  // ValidationError on a member; the student stays
    }
    db.InsertProject(project);

    var notice := NewNotification(db.nextId, mentor.id, studentId, ProjectRequest, Some(projectId), None,
                                  ProjectRequestMessage(req.projectTitle.value, student.name), now);
    db.InsertNotification(notice);
    status := Created;
  }

  // ---------------------------------------------------------------------------
  // POST /api/projects (legacy)

  /** `submitProject` refuses every request and points at the combined registration. */
  function SubmitProject(caller: User): (s: Status)
    ensures s == BadRequest && s.Code() == 400
  {
    BadRequest
  }

  // ---------------------------------------------------------------------------
  // PUT /api/projects/:id/status

  /** `['accepted', 'rejected'].includes(status)`, for an absent value too. */
  function MentorDecision(status: Option<string>): (d: Option<MentorStatus>)
    ensures d.Some? <==> status == Some("accepted") || status == Some("rejected")
    ensures d.Some? ==> MentorStatusName(d.value) == status.value
  {
    if status.Some? then ParseMentorDecision(status.value) else None
  }

  function MentorResponseMessage(decision: string, mentorName: string): string {
    "Your mentor request has been " + decision + " by " + mentorName + "."
  }

  /**
   * `updateMentorStatus`. There is no `try`: an id that is not an ObjectId, and a project
   * whose `mentor` is null (`project.mentor.toString()` throws), leave the request
   * unanswered. The current status is not consulted, so a decision can be sent again from
   * accepted or rejected, and each time the leader gets one more notification.
   */
  method UpdateMentorStatus(db: Database, caller: User, id: Option<Id>, status: Option<string>, now: nat)
    returns (st: Status)
    requires db.Valid()
    modifies db
    ensures db.Valid()
    ensures db.users == old(db.users) && db.documents == old(db.documents)
    ensures st in {Ok, BadRequest, NotFound, Forbidden, Unhandled}
    ensures MentorDecision(status).None? ==> st == BadRequest
    ensures MentorDecision(status).Some? && id.None? ==> st == Unhandled
    ensures MentorDecision(status).Some? && id.Some? && ProjectById(old(db.projects), id.value).None? ==>
              st == NotFound
    ensures MentorDecision(status).Some? && id.Some? && ProjectById(old(db.projects), id.value).Some? ==>
              var p := old(db.projects)[ProjectById(old(db.projects), id.value).value];
              && (p.mentor.None? ==> st == Unhandled)
              && (p.mentor.Some? && p.mentor.value != caller.id ==> st == Forbidden)
              && (p.mentor == Some(caller.id) ==> st == Ok)
    ensures st == Ok ==>
              var k := ProjectById(old(db.projects), id.value).value;
              var p := old(db.projects)[k];
              && db.projects == old(db.projects)[k := p.(mentorStatus := MentorDecision(status).value)]
              && db.notifications == old(db.notifications) + [
                   NewNotification(old(db.nextId), p.student, caller.id, MentorRequestResponse, Some(p.id), None,
                                   MentorResponseMessage(status.value, caller.name), now)]
    ensures st != Ok ==> db.projects == old(db.projects) && db.notifications == old(db.notifications)
                         && db.nextId == old(db.nextId)
    ensures st == Ok ==> db.nextId == old(db.nextId) + 1
  {
    var decision := MentorDecision(status);
    if decision.None? {
      return BadRequest;
    }
    if id.None? {
      return Unhandled;  // CastError, outside any try
    }
    var found := ProjectById(db.projects, id.value);
    if found.None? {
      return NotFound;
    }
    var k := found.value;
    var project := db.projects[k];
    if project.mentor.None? {
      return Unhandled;  // null.toString()
    }
    if project.mentor.value != caller.id {
      return Forbidden;
    }
    db.SaveProject(k, project.(mentorStatus := decision.value));
    var notice := NewNotification(db.nextId, project.student, caller.id, MentorRequestResponse, Some(project.id),
                                  None, MentorResponseMessage(status.value, caller.name), now);
    db.InsertNotification(notice);
    st := Ok;
  }

  /** A mentor who accepted a request can reject it afterwards: the second call succeeds too,
      the project ends up rejected and the leader has been notified twice. */
  method MentorDecisionRefired(db: Database, caller: User, id: Id, now: nat)
    returns (first: Status, second: Status)
    requires db.Valid()
    modifies db
    ensures first == Ok ==> ProjectById(old(db.projects), id).Some? && |db.projects| == |old(db.projects)|
    ensures first == Ok ==> second == Ok
    ensures first == Ok ==>
              && |db.notifications| == |old(db.notifications)| + 2
              && db.projects[ProjectById(old(db.projects), id).value].mentorStatus == Rejected
  {
    first := UpdateMentorStatus(db, caller, Some(id), Some("accepted"), now);
    if first == Ok {
      var k := ProjectById(old(db.projects), id).value;
      assert db.projects[k].id == id && db.projects[k].mentor == Some(caller.id);
      assert ProjectById(db.projects, id) == Some(k) by {
        assert forall j :: 0 <= j < |db.projects| && j != k ==> db.projects[j].id != id;
      }
      second := UpdateMentorStatus(db, caller, Some(id), Some("rejected"), now);
    } else {
      second := first;
    }
  }

  // ---------------------------------------------------------------------------
  // PUT /api/projects/:id/remarks

  /** `addFinalRemarks`: the assigned mentor overwrites the one remarks string. */
  method AddFinalRemarks(db: Database, caller: User, id: Option<Id>, finalRemarks: Option<string>)
    returns (st: Status)
    requires db.Valid()
    modifies db
    ensures db.Valid()
    ensures db.users == old(db.users) && db.documents == old(db.documents)
    ensures db.notifications == old(db.notifications) && db.nextId == old(db.nextId)
    ensures st in {Ok, BadRequest, NotFound, Forbidden, ServerError}
    ensures !Truthy(finalRemarks) ==> st == BadRequest
    ensures Truthy(finalRemarks) && id.None? ==> st == ServerError
    ensures Truthy(finalRemarks) && id.Some? && ProjectById(old(db.projects), id.value).None? ==> st == NotFound
    ensures Truthy(finalRemarks) && id.Some? && ProjectById(old(db.projects), id.value).Some? ==>
              var k := ProjectById(old(db.projects), id.value).value;
              && (old(db.projects)[k].mentor != Some(caller.id) ==> st == Forbidden)
              && (old(db.projects)[k].mentor == Some(caller.id) ==>
                    st == Ok
                    && db.projects == old(db.projects)[k := old(db.projects)[k].(finalRemarks := finalRemarks.value)])
    ensures st != Ok ==> db.projects == old(db.projects)
  {
    if !Truthy(finalRemarks) {
      return BadRequest;
    }
    if id.None? {
      return ServerError;  // CastError, caught
    }
    var found := ProjectById(db.projects, id.value);
    if found.None? {
      return NotFound;
    }
    var k := found.value;
    var project := db.projects[k];
    if project.mentor.None? || project.mentor.value != caller.id {
      return Forbidden;
    }
    var updated := project.(finalRemarks := finalRemarks.value);
    db.SaveProject(k, updated);
    st := Ok;
  }

  // ---------------------------------------------------------------------------
  // GET /api/projects/teacher

  /** A populated `student` reference with the selected fields `name rollNumber`. */
  datatype StudentRef = StudentRef(id: Id, name: string, rollNumber: Option<string>)

  function PopulateStudent(users: seq<User>, id: Id): (r: Option<StudentRef>)
    ensures r.Some? ==> r.value.id == id
    ensures r.None? <==> forall k :: 0 <= k < |users| ==> users[k].id != id
  {
    match UserById(users, id)
    case None => None
    case Some(k) => Some(StudentRef(id, users[k].name, users[k].rollNumber))
  }

  /** A project as the teacher's list serves it: `finalRemarks` deselected, the student
      populated, and its documents attached. */
  datatype TeacherProjectView = TeacherProjectView(
    id: Id,
    title: string,
    description: string,
    student: Option<StudentRef>,
    members: seq<GroupMember>,
    mentor: Option<Id>,
    requestedMentorName: string,
    mentorStatus: MentorStatus,
    documents: seq<Document>)

  function MentoredBy(ps: seq<Project>, teacher: Id): (r: seq<Project>)
    ensures forall i :: 0 <= i < |r| ==> r[i] in ps && r[i].mentor == Some(teacher)
    ensures forall i :: 0 <= i < |ps| ==> (ps[i] in r <==> ps[i].mentor == Some(teacher))
  {
    Filter(ps, (p: Project) => p.mentor == Some(teacher))
  }

  function ProjectIds(ps: seq<Project>): (r: seq<Id>)
    ensures |r| == |ps| && forall i :: 0 <= i < |ps| ==> r[i] == ps[i].id
  {
    seq(|ps|, i requires 0 <= i < |ps| => ps[i].id)
  }

  /** The filter `{ project: { $in: ids } }` on documents. */
  function InProjects(ids: seq<Id>): Document -> bool {
    (d: Document) => d.project in ids
  }

  /** `documents.filter(d => d.project == p._id)` over the `$in` result is the project's own
      documents: the prefetch loses none of them. */
  lemma AttachedDocuments(ds: seq<Document>, ids: seq<Id>, id: Id)
    requires id in ids
    ensures Filter(Filter(ds, InProjects(ids)), BelongsTo(id)) == DocumentsOf(ds, id)
  {
    FilterFilter(ds, InProjects(ids), BelongsTo(id), BelongsTo(id));
  }

  function TeacherView(p: Project, users: seq<User>, attached: seq<Document>): TeacherProjectView {
    TeacherProjectView(p.id, p.title, p.description, PopulateStudent(users, p.student), p.members,
                       p.mentor, p.requestedMentorName, p.mentorStatus, attached)
  }

  /** The views of `ps`, each with its own documents. */
  function TeacherViews(ps: seq<Project>, users: seq<User>, ds: seq<Document>): (r: seq<TeacherProjectView>)
    ensures |r| == |ps|
    ensures forall k :: 0 <= k < |ps| ==> r[k] == TeacherView(ps[k], users, DocumentsOf(ds, ps[k].id))
  {
    seq(|ps|, k requires 0 <= k < |ps| => TeacherView(ps[k], users, DocumentsOf(ds, ps[k].id)))
  }

  /** The views of `ps` plus one more project are the views of `ps` plus that project's view. */
  lemma TeacherViewsSnoc(ps: seq<Project>, p: Project, users: seq<User>, ds: seq<Document>)
    ensures TeacherViews(ps + [p], users, ds) == TeacherViews(ps, users, ds) + [TeacherView(p, users, DocumentsOf(ds, p.id))]
  {
    var l := TeacherViews(ps + [p], users, ds);
    var r := TeacherViews(ps, users, ds) + [TeacherView(p, users, DocumentsOf(ds, p.id))];
    assert |l| == |r|;
    forall k | 0 <= k < |l|
      ensures l[k] == r[k]
    {
      if k < |ps| {
        assert (ps + [p])[k] == ps[k];
      } else {
        assert (ps + [p])[k] == p;
      }
    }
  }

  /**
   * One `$in` query fetches the documents of all `projects`, and each project's view then
   * takes the fetched documents that point at it.
   */
  method AttachDocuments(projects: seq<Project>, users: seq<User>, ds: seq<Document>)
    returns (views: seq<TeacherProjectView>)
    ensures views == TeacherViews(projects, users, ds)
  {
    var ids := ProjectIds(projects);
    var documents := Filter(ds, InProjects(ids));
    views := [];
    var i := 0;
    while i < |projects|
      invariant 0 <= i <= |projects|
      invariant views == TeacherViews(projects[..i], users, ds)
    {
      var p := projects[i];
      assert ids[i] == p.id;
      AttachedDocuments(ds, ids, p.id);
      var attached := Filter(documents, BelongsTo(p.id));
      TeacherViewsSnoc(projects[..i], p, users, ds);
      assert projects[..i + 1] == projects[..i] + [p];
      views := views + [TeacherView(p, users, attached)];
      i := i + 1;
    }
    assert projects[..i] == projects;
  }

  /**
   * `getTeacherProjects`: every project the caller mentors, in table order, each with exactly
   * its own documents. `finalRemarks` is not part of the view.
   */
  method GetTeacherProjects(db: Database, caller: User) returns (st: Status, views: seq<TeacherProjectView>)
    ensures st == Ok
    ensures views == TeacherViews(MentoredBy(db.projects, caller.id), db.users, db.documents)
  {
    views := AttachDocuments(MentoredBy(db.projects, caller.id), db.users, db.documents);
    st := Ok;
  }

  /** Each served project is one the caller mentors, carrying exactly its own documents, and
      every project the caller mentors is served. */
  lemma TeacherViewsComplete(ps: seq<Project>, users: seq<User>, ds: seq<Document>, teacher: Id)
    ensures var views := TeacherViews(MentoredBy(ps, teacher), users, ds);
            && (forall k :: 0 <= k < |views| ==> views[k].mentor == Some(teacher))
            && (forall k, j :: 0 <= k < |views| && 0 <= j < |ds| ==>
                  (ds[j] in views[k].documents <==> ds[j].project == views[k].id))
            && (forall i :: 0 <= i < |ps| && ps[i].mentor == Some(teacher) ==>
                  exists k :: 0 <= k < |views| && views[k].id == ps[i].id)
  {
    var mine := MentoredBy(ps, teacher);
    var views := TeacherViews(mine, users, ds);
    forall i | 0 <= i < |ps| && ps[i].mentor == Some(teacher)
      ensures exists k :: 0 <= k < |views| && views[k].id == ps[i].id
    {
      assert ps[i] in mine;
      var k :| 0 <= k < |mine| && mine[k] == ps[i];
      assert views[k].id == ps[i].id;
    }
  }

  // ---------------------------------------------------------------------------
  // GET /api/projects/my-dashboard

  datatype TeamMember = TeamMember(name: string, roll: string)

  /** The response of the student dashboard. */
  datatype DashboardView = DashboardView(
    projectId: Id,
    registeredName: string,
    title: string,
    description: string,
    mentorName: string,
    mentorStatus: MentorStatus,
    teamMembers: seq<TeamMember>,
    mentorRemarks: seq<string>,
    documents: seq<Document>)

  const NoDescription := "No description added yet."
  const NoMentor := "TBD Mentor"

  /** `mentor ? name + " (" + designation + ")" : "TBD Mentor"` over the populated mentor,
      which is null also when the referenced user no longer exists. */
  function MentorLabel(users: seq<User>, mentor: Option<Id>): (r: string)
    ensures mentor.None? ==> r == NoMentor
    ensures mentor.Some? && UserById(users, mentor.value).None? ==> r == NoMentor
    ensures mentor.Some? && UserById(users, mentor.value).Some? ==>
              var u := users[UserById(users, mentor.value).value];
              r == u.name + " (" + Interpolate(u.designation) + ")"
  {
    if mentor.None? then NoMentor
    else match UserById(users, mentor.value)
      case None => NoMentor
      case Some(k) => users[k].name + " (" + Interpolate(users[k].designation) + ")"
  }

  function TeamOf(members: seq<GroupMember>): (r: seq<TeamMember>)
    ensures |r| == |members|
    ensures forall i :: 0 <= i < |r| ==> r[i] == TeamMember(members[i].memberName, members[i].memberRoll)
  {
    seq(|members|, i requires 0 <= i < |members| => TeamMember(members[i].memberName, members[i].memberRoll))
  }

  /** `finalRemarks ? [finalRemarks] : []`. */
  function RemarksList(finalRemarks: string): (r: seq<string>)
    ensures |r| <= 1
    ensures r == [] <==> finalRemarks == ""
    ensures r != [] ==> r[0] == finalRemarks
  {
    if finalRemarks != "" then [finalRemarks] else []
  }

  /**
   * `getStudentDashboard`: the first project the caller leads, or 404. A member who does not
   * lead a project has no dashboard.
   */
  function StudentDashboard(users: seq<User>, projects: seq<Project>, documents: seq<Document>, caller: User)
    : (r: (Status, Option<DashboardView>))
    ensures r.0 == NotFound <==> forall k :: 0 <= k < |projects| ==> projects[k].student != caller.id
    ensures r.0 == NotFound ==> r.1.None?
    ensures r.0 != NotFound ==> r.0 == Ok && r.1.Some?
    ensures r.1.Some? ==>
              var p := projects[ProjectByLeader(projects, caller.id).value];
              var v := r.1.value;
              && v.projectId == p.id && p.student == caller.id && v.registeredName == caller.name
              && v.title == p.title && v.mentorStatus == p.mentorStatus
              && v.description != ""
              && (p.description != "" ==> v.description == p.description)
              && (p.description == "" ==> v.description == NoDescription)
              && v.mentorName == MentorLabel(users, p.mentor)
              && v.teamMembers == TeamOf(p.members)
              && v.mentorRemarks == RemarksList(p.finalRemarks)
              && v.documents == DocumentsOf(documents, p.id)
  {
    match ProjectByLeader(projects, caller.id)
    case None => (NotFound, None)
    case Some(k) =>
      var p := projects[k];
      (Ok, Some(DashboardView(p.id, caller.name, p.title, OrElse(Some(p.description), NoDescription),
                              MentorLabel(users, p.mentor), p.mentorStatus, TeamOf(p.members),
                              RemarksList(p.finalRemarks), DocumentsOf(documents, p.id))))
  }

  /** After the mentor's remarks are saved, the leader's dashboard shows exactly that text. */
  lemma DashboardShowsSavedRemarks(users: seq<User>, projects: seq<Project>, documents: seq<Document>,
                                   caller: User, k: nat, text: string)
    requires k < |projects| && ProjectByLeader(projects, caller.id) == Some(k) && text != ""
    ensures var r := StudentDashboard(users, projects[k := projects[k].(finalRemarks := text)], documents, caller);
            r.1.Some? && r.1.value.mentorRemarks == [text]
  {
    var ps := projects[k := projects[k].(finalRemarks := text)];
    assert ps[k].student == caller.id;
    assert forall j :: 0 <= j < k ==> ps[j] == projects[j];
    assert ProjectByLeader(ps, caller.id) == Some(k);
  }

  // ---------------------------------------------------------------------------
  // POST /api/projects/upload-document/:projectId

  /** The file multer stored, as `req.file` describes it. */
  datatype UploadedFile = UploadedFile(filename: string, path: string, mimetype: string)

  /** The leader, or a user whose roll number equals some member's `memberRoll`. A caller
      without a roll number matches no member. */
  predicate MayUpload(p: Project, caller: User) {
    p.student == caller.id
    || exists m :: 0 <= m < |p.members| && Some(p.members[m].memberRoll) == caller.rollNumber
  }

  /** `uploadDocument`: a file (400), a project (404), the leader or a member (403), then a
      pending document record; a record that fails validation is the `catch`'s 500. */
  method UploadDocument(db: Database, caller: User, projectId: Option<Id>, name: Option<string>,
                        description: Option<string>, file: Option<UploadedFile>, now: nat)
    returns (st: Status)
    requires db.Valid()
    modifies db
    ensures db.Valid()
    ensures db.users == old(db.users) && db.projects == old(db.projects)
    ensures db.notifications == old(db.notifications)
    ensures st in {Created, BadRequest, NotFound, Forbidden, ServerError}
    ensures file.None? ==> st == BadRequest
    ensures file.Some? && projectId.None? ==> st == ServerError
    ensures file.Some? && projectId.Some? && ProjectById(old(db.projects), projectId.value).None? ==>
              st == NotFound
    ensures file.Some? && projectId.Some? && ProjectById(old(db.projects), projectId.value).Some? ==>
              var p := old(db.projects)[ProjectById(old(db.projects), projectId.value).value];
              && (!MayUpload(p, caller) ==> st == Forbidden)
              && (MayUpload(p, caller) ==> st in {Created, ServerError})
              && (MayUpload(p, caller) ==>
                    (st == Created <==>
                       ValidDocument(NewDocument(old(db.nextId), name.GetOr(""), description, projectId.value,
                                                 file.value.filename, file.value.path, file.value.mimetype, now))))
    ensures st == Created ==>
              var d := NewDocument(old(db.nextId), name.GetOr(""), description, projectId.value,
                                   file.value.filename, file.value.path, file.value.mimetype, now);
              && db.documents == old(db.documents) + [d]
              && d.status == DocPending && ValidDocument(d)
              && MayUpload(old(db.projects)[ProjectById(old(db.projects), projectId.value).value], caller)
    ensures st != Created ==> db.documents == old(db.documents) && db.nextId == old(db.nextId)
  {
    if file.None? {
      return BadRequest;
    }
    if projectId.None? {
      return ServerError;  // CastError, caught
    }
    var found := ProjectById(db.projects, projectId.value);
    if found.None? {
      return NotFound;
    }
    var project := db.projects[found.value];
    var isLeader := project.student == caller.id;
    var isMember := exists m :: 0 <= m < |project.members| && Some(project.members[m].memberRoll) == caller.rollNumber;
    if !isLeader && !isMember {
      return Forbidden;
    }
    var doc := NewDocument(db.nextId, name.GetOr(""), description, projectId.value,
                           file.value.filename, file.value.path, file.value.mimetype, now);
    if !ValidDocument(doc) {
      return ServerError;  // ValidationError, caught
    }
    db.InsertDocument(doc);
    st := Created;
  }

  // ---------------------------------------------------------------------------
  // GET /api/projects/documents/download/:fileName

  /** What `res.download` reports: the file was sent, it is not on disk (ENOENT), or another
      error before any header went out. */
  datatype Disk = Sent | Missing | Failed

  datatype Download = Served(fileName: string, displayName: string) | DownloadRefused(status: Status)

  /** `${document.name}${path.extname(document.fileName)}`. */
  function DisplayName(d: Document): (r: string)
    ensures |d.name| <= |r| && r[..|d.name|] == d.name
    ensures r == d.name || r[|d.name|] == '.'
    ensures var part := LastPart(StripTrailingSlashes(d.fileName));
            && (r != d.name <==> LastDot(part).Some? && LastDot(part).value > 0 && part != "..")
            && (r != d.name ==> r[|d.name|..] == part[LastDot(part).value..])
  {
    d.name + ExtName(d.fileName)
  }

  /** Multer keeps the original's extension, so an original without one gives a stored
      name without a dot, and the download is offered under the document's name alone. */
  lemma DisplayNameWithoutExtension(d: Document)
    requires '.' !in d.fileName
    ensures DisplayName(d) == d.name
  {
    ExtNameWithoutDot(d.fileName);
  }

  /** Multer names an upload `documentFile-<time>-<random>` plus the original extension, so
      the download keeps the extension of the file the student uploaded. */
  lemma DisplayNameOfUpload(d: Document, stamp: string, ext: string)
    requires '/' !in stamp && '.' !in ext && '/' !in ext
    requires d.fileName == "documentFile-" + stamp + "." + ext
    ensures DisplayName(d) == d.name + "." + ext
  {
    var base := "documentFile-" + stamp;
    MulterBase(stamp);
    ExtNameOfFileName(base, ext);
  }

  /** Multer's stored base name has no `/` and does not start with a dot. */
  lemma MulterBase(stamp: string)
    requires '/' !in stamp
    ensures var base := "documentFile-" + stamp; |base| > 0 && base[0] != '.' && '/' !in base
  {
    var prefix := "documentFile-";
    var base := prefix + stamp;
    forall i | 0 <= i < |base| ensures base[i] != '/' {
      if i < |prefix| { assert base[i] == prefix[i]; } else { assert base[i] == stamp[i - |prefix|]; }
    }
    assert base[0] == 'd';
  }

  /** `downloadDocument`: only the leader of the document's project gets the file. */
  function DownloadDocument(documents: seq<Document>, projects: seq<Project>, caller: User,
                            fileName: string, disk: Disk): (r: Download)
    ensures DocumentByFileName(documents, fileName).None? ==> r == DownloadRefused(NotFound)
    ensures r.Served? <==>
              && DocumentByFileName(documents, fileName).Some?
              && OwnedProject(projects, documents[DocumentByFileName(documents, fileName).value].project, caller.id).Some?
              && disk == Sent
    ensures r.Served? ==>
              var d := documents[DocumentByFileName(documents, fileName).value];
              d.fileName == fileName && r.fileName == fileName && r.displayName == DisplayName(d)
    ensures DocumentByFileName(documents, fileName).Some? ==>
              var d := documents[DocumentByFileName(documents, fileName).value];
              && (OwnedProject(projects, d.project, caller.id).None? ==> r == DownloadRefused(Forbidden))
              && (OwnedProject(projects, d.project, caller.id).Some? && disk == Missing ==>
                    r == DownloadRefused(NotFound))
              && (OwnedProject(projects, d.project, caller.id).Some? && disk == Failed ==>
                    r == DownloadRefused(ServerError))
    ensures r.DownloadRefused? ==> r.status in {NotFound, Forbidden, ServerError}
  {
    match DocumentByFileName(documents, fileName)
    case None => DownloadRefused(NotFound)
    case Some(k) =>
      var d := documents[k];
      match OwnedProject(projects, d.project, caller.id)
      case None => DownloadRefused(Forbidden)
      case Some(_) =>
        match disk
        case Sent => Served(d.fileName, DisplayName(d))
        case Missing => DownloadRefused(NotFound)
        case Failed => DownloadRefused(ServerError)
  }

  /** A team member who is not the leader can upload to a project but not download from it:
      whoever does not lead the document's project, even the leader of another project, gets
      403, whatever the disk would report. */
  lemma MemberCannotDownload(documents: seq<Document>, projects: seq<Project>, caller: User,
                             fileName: string, disk: Disk)
    requires DocumentByFileName(documents, fileName).Some?
    requires var d := documents[DocumentByFileName(documents, fileName).value];
             forall j :: 0 <= j < |projects| && projects[j].id == d.project ==> projects[j].student != caller.id
    ensures DownloadDocument(documents, projects, caller, fileName, disk) == DownloadRefused(Forbidden)
  {
  }

  // ---------------------------------------------------------------------------
  // DELETE /api/projects/documents/:docId

  /**
   * `deleteDocument`: the leader of the document's project deletes the record. Removing the
   * file from disk is fire-and-forget: `unlinkSucceeded` plays no part in the outcome.
   */
  method DeleteDocument(db: Database, caller: User, docId: Option<Id>, unlinkSucceeded: bool)
    returns (st: Status)
    requires db.Valid()
    modifies db
    ensures db.Valid()
    ensures db.users == old(db.users) && db.projects == old(db.projects)
    ensures db.notifications == old(db.notifications) && db.nextId == old(db.nextId)
    ensures st in {Ok, NotFound, Forbidden, ServerError}
    ensures docId.None? ==> st == ServerError
    ensures docId.Some? && DocumentById(old(db.documents), docId.value).None? ==> st == NotFound
    ensures docId.Some? && DocumentById(old(db.documents), docId.value).Some? ==>
              var k := DocumentById(old(db.documents), docId.value).value;
              && (OwnedProject(old(db.projects), old(db.documents)[k].project, caller.id).None? ==> st == Forbidden)
              && (OwnedProject(old(db.projects), old(db.documents)[k].project, caller.id).Some? ==>
                    st == Ok && db.documents == RemoveAt(old(db.documents), k))
    ensures st != Ok ==> db.documents == old(db.documents)
  {
    if docId.None? {
      return ServerError;
    }
    var found := DocumentById(db.documents, docId.value);
    if found.None? {
      return NotFound;
    }
    var k := found.value;
    if OwnedProject(db.projects, db.documents[k].project, caller.id).None? {
      return Forbidden;
    }
    DocumentsRemove(db.documents, k, db.nextId);
    db.documents := RemoveAt(db.documents, k);
    st := Ok;
  }

  /** Deleting by id removes that one document and no other: ids are distinct. */
  lemma DeleteRemovesOnlyThat(ds: seq<Document>, k: nat, bound: Id)
    requires DocumentsOk(ds, bound) && k < |ds|
    ensures forall i :: 0 <= i < |RemoveAt(ds, k)| ==> RemoveAt(ds, k)[i].id != ds[k].id
    ensures forall i :: 0 <= i < |ds| && i != k ==> ds[i] in RemoveAt(ds, k)
  {
    var r := RemoveAt(ds, k);
    forall i | 0 <= i < |ds| && i != k ensures ds[i] in r {
      if i < k { assert r[i] == ds[i]; } else { assert r[i - 1] == ds[i]; }
    }
  }

  // ---------------------------------------------------------------------------
  // PUT /api/projects/description

  /** `updateProjectDescription`: only an absent field is refused, so the empty string may be
      stored. */
  method UpdateProjectDescription(db: Database, caller: User, description: Option<string>)
    returns (st: Status)
    requires db.Valid()
    modifies db
    ensures db.Valid()
    ensures db.users == old(db.users) && db.documents == old(db.documents)
    ensures db.notifications == old(db.notifications) && db.nextId == old(db.nextId)
    ensures description.None? ==> st == BadRequest && db.projects == old(db.projects)
    ensures description.Some? && ProjectByLeader(old(db.projects), caller.id).None? ==>
              st == NotFound && db.projects == old(db.projects)
    ensures description.Some? && ProjectByLeader(old(db.projects), caller.id).Some? ==>
              var k := ProjectByLeader(old(db.projects), caller.id).value;
              st == Ok && db.projects == old(db.projects)[k := old(db.projects)[k].(description := description.value)]
  {
    if description.None? {
      return BadRequest;
    }
    var found := ProjectByLeader(db.projects, caller.id);
    if found.None? {
      return NotFound;
    }
    var k := found.value;
    var updated := db.projects[k].(description := description.value);
    db.SaveProject(k, updated);
    st := Ok;
  }

  // ---------------------------------------------------------------------------
  // PUT /api/projects/documents/:docId/status

  /** `['approved', 'rejected'].includes(status)`, for an absent value too. */
  function DocDecision(status: Option<string>): (d: Option<DocStatus>)
    ensures d.Some? <==> status == Some("approved") || status == Some("rejected")
    ensures d.Some? ==> DocStatusName(d.value) == status.value
  {
    if status.Some? then ParseDocDecision(status.value) else None
  }

  function DocumentStatusMessage(docName: string, decision: string): string {
    "Your document \"" + docName + "\" has been " + decision + "."
  }

  /**
   * `updateDocumentStatus`. The document's project is populated; when it no longer exists,
   * reading its mentor throws inside the `try` (500). Only the project's mentor may decide,
   * and the current status is not consulted. The save stamps `updatedAt` with the request
   * time; the leader gets one notification that references the project and the document.
   */
  method UpdateDocumentStatus(db: Database, caller: User, docId: Option<Id>, status: Option<string>, now: nat)
    returns (st: Status)
    requires db.Valid()
    modifies db
    ensures db.Valid()
    ensures db.users == old(db.users) && db.projects == old(db.projects)
    ensures st in {Ok, BadRequest, NotFound, Forbidden, ServerError}
    ensures DocDecision(status).None? ==> st == BadRequest
    ensures DocDecision(status).Some? && docId.None? ==> st == ServerError
    ensures DocDecision(status).Some? && docId.Some? && DocumentById(old(db.documents), docId.value).None? ==>
              st == NotFound
    ensures DocDecision(status).Some? && docId.Some? && DocumentById(old(db.documents), docId.value).Some? ==>
              var d := old(db.documents)[DocumentById(old(db.documents), docId.value).value];
              && (ProjectById(db.projects, d.project).None? ==> st == ServerError)
              && (ProjectById(db.projects, d.project).Some? ==>
                    var p := db.projects[ProjectById(db.projects, d.project).value];
                    && (p.mentor != Some(caller.id) ==> st == Forbidden)
                    && (p.mentor == Some(caller.id) ==> st == Ok))
    ensures st == Ok ==>
              var k := DocumentById(old(db.documents), docId.value).value;
              var d := old(db.documents)[k];
              var p := db.projects[ProjectById(db.projects, d.project).value];
              && db.documents == old(db.documents)[k := d.(status := DocDecision(status).value, updatedAt := now)]
              && db.notifications == old(db.notifications) + [
                   NewNotification(old(db.nextId), p.student, caller.id, DocumentStatus, Some(p.id), Some(d.id),
                                   DocumentStatusMessage(d.name, status.value), now)]
    ensures st != Ok ==> db.documents == old(db.documents) && db.notifications == old(db.notifications)
                         && db.nextId == old(db.nextId)
    ensures st == Ok ==> db.nextId == old(db.nextId) + 1
  {
    var decision := DocDecision(status);
    if decision.None? {
      return BadRequest;
    }
    if docId.None? {
      return ServerError;
    }
    var found := DocumentById(db.documents, docId.value);
    if found.None? {
      return NotFound;
    }
    var k := found.value;
    var document := db.documents[k];
    var owner := ProjectById(db.projects, document.project);
    if owner.None? {
      return ServerError;  // document.project is null after populate
    }
    var project := db.projects[owner.value];
    if project.mentor.None? || project.mentor.value != caller.id {
      return Forbidden;
    }
    var updated := document.(status := decision.value, updatedAt := now);
    var notice := NewNotification(db.nextId, project.student, caller.id, DocumentStatus, Some(project.id),
                                  Some(document.id), DocumentStatusMessage(document.name, status.value), now);
    db.SaveDocument(k, updated);
    db.InsertNotification(notice);
    st := Ok;
  }

  /** A mentor who approved a document can reject it afterwards: the second call succeeds too,
      the document ends up rejected and the leader has been notified twice. */
  method DocumentDecisionRefired(db: Database, caller: User, docId: Id, now: nat)
    returns (first: Status, second: Status)
    requires db.Valid()
    modifies db
    ensures first == Ok ==> DocumentById(old(db.documents), docId).Some? && |db.documents| == |old(db.documents)|
    ensures first == Ok ==> second == Ok
    ensures first == Ok ==>
              && |db.notifications| == |old(db.notifications)| + 2
              && db.documents[DocumentById(old(db.documents), docId).value].status == DocRejected
  {
    first := UpdateDocumentStatus(db, caller, Some(docId), Some("approved"), now);
    if first == Ok {
      var k := DocumentById(old(db.documents), docId).value;
      assert db.documents[k].id == docId;
      assert DocumentById(db.documents, docId) == Some(k) by {
        assert forall j :: 0 <= j < |db.documents| && j != k ==> db.documents[j].id != docId;
      }
      second := UpdateDocumentStatus(db, caller, Some(docId), Some("rejected"), now);
    } else {
      second := first;
    }
  }
}
