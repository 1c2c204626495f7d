/**
 * The four Mongoose schemas as datatypes, with the schema's enums, defaults and `required`
 * flags as predicates on records. A record that fails its predicate is one that
 * `Model.create` or `document.save()` rejects with a ValidationError.
 * Object ids are natural numbers; `createdAt`/`updatedAt` are abstract ordered timestamps.
 */
module Schema {
  import opened Wrappers
  import opened JsStrings

  type Id = nat

  // ---------------------------------------------------------------------------
  // User (role enum, role-conditional required fields, unique indexes)

  datatype Role = Student | Teacher

  function RoleName(r: Role): string {
    match r
    case Student => "student"
    case Teacher => "teacher"
  }

  /** The `role` enum: the two strings the schema admits, and nothing else. */
  function ParseRole(s: string): (r: Option<Role>)
    ensures r.Some? <==> s == "student" || s == "teacher"
    ensures r.Some? ==> RoleName(r.value) == s
  {
    if s == "student" then Some(Student)
    else if s == "teacher" then Some(Teacher)
    else None
  }

  /** `rollNumber` and `class` are copied and stored only for students, `designation` and
      `employeeId` only for teachers; absent fields are `None`. */
  datatype User = User(
    id: Id,
    name: string,
    email: string,
    password: string,
    role: Role,
    phone: string,
    rollNumber: Option<string>,
    studentClass: Option<string>,
    designation: Option<string>,
    employeeId: Option<string>)

  /** The schema's own `required` flags: name, email, password, role and phone always;
      rollNumber and class when the role is student; designation and employeeId when it
      is teacher. */
  predicate ValidUser(u: User) {
    && u.name != "" && u.email != "" && u.password != "" && u.phone != ""
    && (u.role == Student ==> Truthy(u.rollNumber) && Truthy(u.studentClass))
    && (u.role == Teacher ==> Truthy(u.designation) && Truthy(u.employeeId))
  }

  /** The unique indexes: `email` on every user; `rollNumber` and `employeeId` (sparse)
      only among users that have the field. */
  predicate UniqueUsers(us: seq<User>) {
    forall i, j :: 0 <= i < j < |us| ==>
      && us[i].email != us[j].email
      && (us[i].rollNumber.Some? && us[j].rollNumber.Some? ==> us[i].rollNumber != us[j].rollNumber)
      && (us[i].employeeId.Some? && us[j].employeeId.Some? ==> us[i].employeeId != us[j].employeeId)
  }

  /** Adding `u` keeps the indexes unique exactly when `u` collides with no stored user. */
  predicate CollidesWith(u: User, v: User) {
    || u.email == v.email
    || (u.rollNumber.Some? && u.rollNumber == v.rollNumber)
    || (u.employeeId.Some? && u.employeeId == v.employeeId)
  }

  /** No stored user shares the new user's email, roll number or employee id. */
  predicate NoCollision(us: seq<User>, u: User) {
    forall j :: 0 <= j < |us| ==> !CollidesWith(u, us[j])
  }

  lemma UniqueAppend(us: seq<User>, u: User)
    requires UniqueUsers(us)
    ensures UniqueUsers(us + [u]) <==> NoCollision(us, u)
  {
    if UniqueUsers(us + [u]) {
      forall j | 0 <= j < |us| ensures !CollidesWith(u, us[j]) {
        assert (us + [u])[j] == us[j] && (us + [u])[|us|] == u;
      }
    }
  }

  // ---------------------------------------------------------------------------
  // Project and its embedded group members

  /** All five GroupMember fields are required. */
  datatype GroupMember = GroupMember(
    memberName: string,
    memberEmail: string,
    memberRoll: string,
    memberClass: string,
    memberPhone: string)

  predicate ValidMember(m: GroupMember) {
    m.memberName != "" && m.memberEmail != "" && m.memberRoll != ""
    && m.memberClass != "" && m.memberPhone != ""
  }

  datatype MentorStatus = Pending | Accepted | Rejected

  function MentorStatusName(s: MentorStatus): string {
    match s
    case Pending => "pending"
    case Accepted => "accepted"
    case Rejected => "rejected"
  }

  /** `['accepted', 'rejected'].includes(status)`: the only values a mentor may send. */
  function ParseMentorDecision(s: string): (r: Option<MentorStatus>)
    ensures r.Some? <==> s == "accepted" || s == "rejected"
    ensures r.Some? ==> r.value != Pending && MentorStatusName(r.value) == s
  {
    if s == "accepted" then Some(Accepted)
    else if s == "rejected" then Some(Rejected)
    else None
  }

  /** `finalRemarks` is one overwritable string, not a list; `mentor` may be null. */
  datatype Project = Project(
    id: Id,
    title: string,
    description: string,
    student: Id,
    members: seq<GroupMember>,
    mentor: Option<Id>,
    requestedMentorName: string,
    mentorStatus: MentorStatus,
    finalRemarks: string)

  /** Schema default of `description` when the creator leaves it out. */
  const DefaultDescription := "No description provided at registration."

  /** A project as `Project.create` stores it from the given fields: `mentor` defaults to
      null, `mentorStatus` to pending and `finalRemarks` to the empty string. */
  function NewProject(id: Id, title: string, description: Option<string>, student: Id,
                      members: seq<GroupMember>, requestedMentorName: string): (p: Project)
    ensures p.mentor.None? && p.mentorStatus == Pending && p.finalRemarks == ""
    ensures description.None? ==> p.description == DefaultDescription
    ensures description.Some? ==> p.description == description.value
    ensures p.id == id && p.title == title && p.student == student && p.members == members
    ensures p.requestedMentorName == requestedMentorName
  {
    Project(id, title, description.GetOr(DefaultDescription), student, members, None,
            requestedMentorName, Pending, "")
  }

  /** `title`, `student` and `requestedMentorName` are required, and so is every field of
      every member. */
  predicate ValidProject(p: Project) {
    p.title != "" && p.requestedMentorName != ""
    && forall k :: 0 <= k < |p.members| ==> ValidMember(p.members[k])
  }

  // ---------------------------------------------------------------------------
  // Document

  datatype DocStatus = DocPending | Approved | DocRejected

  function DocStatusName(s: DocStatus): string {
    match s
    case DocPending => "pending"
    case Approved => "approved"
    case DocRejected => "rejected"
  }

  /** `['approved', 'rejected'].includes(status)`. */
  function ParseDocDecision(s: string): (r: Option<DocStatus>)
    ensures r.Some? <==> s == "approved" || s == "rejected"
    ensures r.Some? ==> r.value != DocPending && DocStatusName(r.value) == s
  {
    if s == "approved" then Some(Approved)
    else if s == "rejected" then Some(DocRejected)
    else None
  }

  /** Every document references exactly one project (`project` is required). */
  datatype Document = Document(
    id: Id,
    name: string,
    description: string,
    project: Id,
    fileName: string,
    filePath: string,
    fileMimeType: string,
    status: DocStatus,
    createdAt: nat,
    updatedAt: nat)

  /** A document as `Document.create` stores it: `description` defaults to the empty string,
      `status` to pending, and both timestamps are the creation time. */
  function NewDocument(id: Id, name: string, description: Option<string>, project: Id,
                       fileName: string, filePath: string, fileMimeType: string,
                       now: nat): (d: Document)
    ensures d.status == DocPending && d.createdAt == now && d.updatedAt == now
    ensures description.None? ==> d.description == ""
    ensures description.Some? ==> d.description == description.value
    ensures d.id == id && d.name == name && d.project == project
    ensures d.fileName == fileName && d.filePath == filePath && d.fileMimeType == fileMimeType
  {
    Document(id, name, description.GetOr(""), project, fileName, filePath, fileMimeType,
             DocPending, now, now)
  }

  predicate ValidDocument(d: Document) {
    d.name != "" && d.fileName != "" && d.filePath != "" && d.fileMimeType != ""
  }

  // ---------------------------------------------------------------------------
  // Notification

  datatype NotificationType =
    | ProjectRequest | MentorRequest | DocumentStatus | General | MentorRequestResponse

  function NotificationTypeName(t: NotificationType): string {
    match t
    case ProjectRequest => "PROJECT_REQUEST"
    case MentorRequest => "MENTOR_REQUEST"
    case DocumentStatus => "DOCUMENT_STATUS"
    case General => "GENERAL"
    case MentorRequestResponse => "MENTOR_REQUEST_RESPONSE"
  }

  /** `recipient`, `sender`, `type` and `message` are required; `project` and `document`
      are optional references. */
  datatype Notification = Notification(
    id: Id,
    recipient: Id,
    sender: Id,
    kind: NotificationType,
    project: Option<Id>,
    document: Option<Id>,
    message: string,
    isRead: bool,
    createdAt: nat)

  /** A notification as `Notification.create` stores it: unread. */
  function NewNotification(id: Id, recipient: Id, sender: Id, kind: NotificationType,
                           project: Option<Id>, document: Option<Id>, message: string,
                           now: nat): (n: Notification)
    ensures !n.isRead && n.createdAt == now
    ensures n.id == id && n.recipient == recipient && n.sender == sender && n.kind == kind
    ensures n.project == project && n.document == document && n.message == message
  {
    Notification(id, recipient, sender, kind, project, document, message, false, now)
  }

  predicate ValidNotification(n: Notification) {
    n.message != ""
  }
}
