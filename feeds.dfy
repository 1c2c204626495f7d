/**
 * `GET /api/projects/all-assignments`: the projects a user works on and a derived list of
 * review requests. A teacher sees one request per pending document of the projects they
 * mentor; a student sees the five most recently reviewed documents of their projects.
 * `uploadedOn` keeps the creation time (its date formatting is not modelled).
 */
module Feeds {
  import opened Wrappers
  import opened Lists
  import opened JsStrings
  import opened Schema
  import opened Store
  import opened Http
  import opened Projects

  datatype DocumentSummary = DocumentSummary(id: Id, name: string, shortDesc: string, uploadedOn: nat)

  /** One element of `requests` in the response. */
  datatype FeedEntry = FeedEntry(
    id: Id,
    projectId: Id,
    teacherName: string,
    studentName: string,
    status: string,
    document: DocumentSummary,
    message: string,
    kind: string)

  /** The response body `{ projects, requests }`. */
  datatype Feed = Feed(projects: seq<Project>, requests: seq<FeedEntry>)

  const ApprovalKind := "DOCUMENT_APPROVAL"
  const StatusKind := "DOCUMENT_STATUS"
  const PendingLabel := "PENDING"

  /** `.limit(5)` on the student's reviewed documents. */
  const FeedLimit: nat := 5

  function Summary(d: Document): DocumentSummary {
    DocumentSummary(d.id, d.name, d.description, d.createdAt)
  }

  /** The `name` of a populated user reference: none when the reference is null or no user
      has that id. */
  function PopulatedName(users: seq<User>, ref: Option<Id>): (r: Option<string>)
    ensures r.Some? <==> ref.Some? && UserById(users, ref.value).Some?
    ensures r.Some? ==> r.value == users[UserById(users, ref.value).value].name
  {
    if ref.None? then None
    else match UserById(users, ref.value)
      case None => None
      case Some(k) => Some(users[k].name)
  }

  /** `doc.project` populated: the project a document points at, looked up in the table. */
  function ProjectOf(ps: seq<Project>, d: Document): (p: Project)
    requires ProjectById(ps, d.project).Some?
    ensures p in ps && p.id == d.project
  {
    ps[ProjectById(ps, d.project).value]
  }

  /** An id is among the ids of the teacher's projects iff some stored project with that id
      has the teacher as mentor. */
  lemma MentoredIds(ps: seq<Project>, teacher: Id, id: Id)
    ensures id in ProjectIds(MentoredBy(ps, teacher)) <==>
              exists k :: 0 <= k < |ps| && ps[k].id == id && ps[k].mentor == Some(teacher)
  {
    var mine := MentoredBy(ps, teacher);
    var ids := ProjectIds(mine);
    if id in ids {
      var i :| 0 <= i < |ids| && ids[i] == id;
      assert mine[i] in ps;
      var k :| 0 <= k < |ps| && ps[k] == mine[i];
      assert ps[k].id == id && ps[k].mentor == Some(teacher);
    }
    if exists k :: 0 <= k < |ps| && ps[k].id == id && ps[k].mentor == Some(teacher) {
      var k :| 0 <= k < |ps| && ps[k].id == id && ps[k].mentor == Some(teacher);
      assert ps[k] in mine;
      var i :| 0 <= i < |mine| && mine[i] == ps[k];
      assert ids[i] == id;
    }
  }

  /** Every id of a sub-list of the table names a stored project. */
  lemma IdsResolve(ps: seq<Project>, sub: seq<Project>, id: Id)
    requires forall i :: 0 <= i < |sub| ==> sub[i] in ps
    requires id in ProjectIds(sub)
    ensures ProjectById(ps, id).Some?
  {
    var ids := ProjectIds(sub);
    var i :| 0 <= i < |ids| && ids[i] == id;
    assert sub[i] in ps;
    var k :| 0 <= k < |ps| && ps[k] == sub[i];
    assert ps[k].id == id;
  }

  // ---------------------------------------------------------------------------
  // The teacher's feed

  /** `{ project: { $in: ids }, status: 'pending' }`. */
  function PendingIn(ids: seq<Id>): Document -> bool {
    (d: Document) => d.project in ids && d.status == DocPending
  }

  /** The pending documents of the projects the teacher mentors, in table order. */
  function PendingDocs(ps: seq<Project>, ds: seq<Document>, teacher: Id): (r: seq<Document>)
    ensures forall i :: 0 <= i < |r| ==> r[i] in ds && r[i].status == DocPending
    ensures forall i :: 0 <= i < |r| ==> ProjectById(ps, r[i].project).Some?
    ensures forall j :: 0 <= j < |ds| ==>
              (ds[j] in r <==>
                 ds[j].status == DocPending
                 && exists k :: 0 <= k < |ps| && ps[k].id == ds[j].project && ps[k].mentor == Some(teacher))
  {
    var mine := MentoredBy(ps, teacher);
    var r := Filter(ds, PendingIn(ProjectIds(mine)));
    forall i | 0 <= i < |r| ensures ProjectById(ps, r[i].project).Some? {
      IdsResolve(ps, mine, r[i].project);
    }
    forall j | 0 <= j < |ds|
      ensures ds[j] in r <==>
                ds[j].status == DocPending
                && exists k :: 0 <= k < |ps| && ps[k].id == ds[j].project && ps[k].mentor == Some(teacher)
    {
      MentoredIds(ps, teacher, ds[j].project);
    }
    r
  }

  /** `doc.project.student ? doc.project.student.name : "Student"`. */
  function StudentNameOf(users: seq<User>, p: Project): string {
    match PopulatedName(users, Some(p.student))
    case Some(n) => n
    case None => "Student"
  }

  /** `(doc.project.mentor && doc.project.mentor.name) || name`. */
  function ApproverName(users: seq<User>, p: Project, callerName: string): (r: string)
    ensures Truthy(PopulatedName(users, p.mentor)) ==> r == PopulatedName(users, p.mentor).value
    ensures !Truthy(PopulatedName(users, p.mentor)) ==> r == callerName
  {
    OrElse(PopulatedName(users, p.mentor), callerName)
  }

  function ApprovalMessage(studentName: string, title: string): string {
    "New file submitted by " + studentName + " for Project: " + title + ". Requires review."
  }

  /** The request built for one pending document. */
  function TeacherEntry(d: Document, p: Project, users: seq<User>, callerName: string): (e: FeedEntry)
    ensures e.id == d.id && e.document == Summary(d) && e.projectId == p.id
    ensures e.status == PendingLabel && e.kind == ApprovalKind
    ensures e.teacherName == ApproverName(users, p, callerName)
    ensures e.message == ApprovalMessage(e.studentName, p.title)
  {
    var student := StudentNameOf(users, p);
    FeedEntry(d.id, p.id, ApproverName(users, p, callerName), student, PendingLabel, Summary(d),
              ApprovalMessage(student, p.title), ApprovalKind)
  }

  /** The teacher's `requests`: one entry per pending document of a mentored project, in the
      documents' table order. */
  function TeacherFeed(ps: seq<Project>, ds: seq<Document>, users: seq<User>, caller: User)
    : (r: seq<FeedEntry>)
    ensures |r| == |PendingDocs(ps, ds, caller.id)|
    ensures forall i :: 0 <= i < |r| ==>
              var d := PendingDocs(ps, ds, caller.id)[i];
              && r[i].id == d.id && r[i].projectId == d.project && r[i].document == Summary(d)
              && r[i].status == PendingLabel && r[i].kind == ApprovalKind
  {
    var docs := PendingDocs(ps, ds, caller.id);
    seq(|docs|, i requires 0 <= i < |docs| => TeacherEntry(docs[i], ProjectOf(ps, docs[i]), users, caller.name))
  }

  /** With document ids stored once, a document is the subject of a request in the teacher's
      feed iff it is pending and belongs to a project the teacher mentors. */
  lemma TeacherFeedExact(ps: seq<Project>, ds: seq<Document>, users: seq<User>, caller: User, j: nat)
    requires forall a, b :: 0 <= a < b < |ds| ==> ds[a].id != ds[b].id
    requires j < |ds|
    ensures (exists i :: 0 <= i < |TeacherFeed(ps, ds, users, caller)|
                        && TeacherFeed(ps, ds, users, caller)[i].document == Summary(ds[j])) <==>
            (ds[j].status == DocPending
             && exists k :: 0 <= k < |ps| && ps[k].id == ds[j].project && ps[k].mentor == Some(caller.id))
  {
    var docs := PendingDocs(ps, ds, caller.id);
    var r := TeacherFeed(ps, ds, users, caller);
    if ds[j] in docs {
      var i :| 0 <= i < |docs| && docs[i] == ds[j];
      assert r[i].document == Summary(ds[j]);
    }
    if exists i :: 0 <= i < |r| && r[i].document == Summary(ds[j]) {
      var i :| 0 <= i < |r| && r[i].document == Summary(ds[j]);
      assert docs[i] in ds;
      var j' :| 0 <= j' < |ds| && ds[j'] == docs[i];
      assert ds[j'].id == ds[j].id;
      assert j' == j;
    }
  }

  /** With project ids stored once, the approver in a teacher's feed is always the caller:
      every listed project has the caller as mentor, so the populated mentor is the caller's
      own record (or, if that record is gone, the fallback is the caller's name anyway). */
  lemma TeacherFeedNamesCaller(ps: seq<Project>, ds: seq<Document>, users: seq<User>, caller: User)
    requires forall a, b :: 0 <= a < b < |ps| ==> ps[a].id != ps[b].id
    requires UserById(users, caller.id).Some? ==> users[UserById(users, caller.id).value].name == caller.name
    ensures forall i :: 0 <= i < |TeacherFeed(ps, ds, users, caller)| ==>
              TeacherFeed(ps, ds, users, caller)[i].teacherName == caller.name
  {
    var docs := PendingDocs(ps, ds, caller.id);
    var r := TeacherFeed(ps, ds, users, caller);
    forall i | 0 <= i < |r| ensures r[i].teacherName == caller.name {
      var j :| 0 <= j < |ds| && ds[j] == docs[i];
      var k :| 0 <= k < |ps| && ps[k].id == ds[j].project && ps[k].mentor == Some(caller.id);
      var f := ProjectById(ps, docs[i].project).value;
      assert f == k;
      assert r[i] == TeacherEntry(docs[i], ps[k], users, caller.name);
    }
  }

  // ---------------------------------------------------------------------------
  // The student's feed

  /**
   * `{ $or: [{ student: id }, { 'members.memberRoll': rollNo }] }`. The handler passes
   * `req.user.rollNo`, a field users do not have, so `rollNo` is always absent there; an
   * absent value is taken to match no member.
   */
  function StudentSelects(id: Id, rollNo: Option<string>): Project -> bool {
    (p: Project) => p.student == id
                    || (rollNo.Some? && exists m :: 0 <= m < |p.members| && p.members[m].memberRoll == rollNo.value)
  }

  function StudentProjects(ps: seq<Project>, id: Id, rollNo: Option<string>): (r: seq<Project>)
    ensures forall i :: 0 <= i < |r| ==> r[i] in ps && StudentSelects(id, rollNo)(r[i])
    ensures forall i :: 0 <= i < |ps| ==> (ps[i] in r <==> StudentSelects(id, rollNo)(ps[i]))
  {
    Filter(ps, StudentSelects(id, rollNo))
  }

  function LedBy(id: Id): Project -> bool {
    (p: Project) => p.student == id
  }

  /** With the roll number the handler actually passes, the selection is the projects the
      caller leads: a team member's own projects never appear. */
  lemma StudentProjectsAreLed(ps: seq<Project>, id: Id)
    ensures StudentProjects(ps, id, None) == Filter(ps, LedBy(id))
    ensures (forall k :: 0 <= k < |ps| ==> ps[k].student != id) ==> StudentProjects(ps, id, None) == []
  {
    FilterCongruent(ps, StudentSelects(id, None), LedBy(id));
    var r := StudentProjects(ps, id, None);
    if |r| > 0 {
      assert r[0] in ps;
    }
  }

  /** A roll number the query does receive selects the projects listing it as a member. */
  lemma StudentProjectsWithRoll(ps: seq<Project>, id: Id, roll: string, k: nat, m: nat)
    requires k < |ps| && m < |ps[k].members| && ps[k].members[m].memberRoll == roll
    ensures ps[k] in StudentProjects(ps, id, Some(roll))
  {
    assert StudentSelects(id, Some(roll))(ps[k]);
  }

  /** `{ project: { $in: ids }, status: { $in: ['approved', 'rejected'] } }`. */
  function ReviewedIn(ids: seq<Id>): Document -> bool {
    (d: Document) => d.project in ids && d.status != DocPending
  }

  function UpdatedAt(d: Document): int {
    d.updatedAt
  }

  /** An id is among the ids of the student's projects iff some stored project with that id
      is selected for the student. */
  lemma SelectedIds(ps: seq<Project>, id: Id, rollNo: Option<string>, pid: Id)
    ensures pid in ProjectIds(StudentProjects(ps, id, rollNo)) <==>
              exists k :: 0 <= k < |ps| && ps[k].id == pid && StudentSelects(id, rollNo)(ps[k])
  {
    var mine := StudentProjects(ps, id, rollNo);
    var ids := ProjectIds(mine);
    if pid in ids {
      var i :| 0 <= i < |ids| && ids[i] == pid;
      assert mine[i] in ps;
      var k :| 0 <= k < |ps| && ps[k] == mine[i];
      assert ps[k].id == pid && StudentSelects(id, rollNo)(ps[k]);
    }
    if exists k :: 0 <= k < |ps| && ps[k].id == pid && StudentSelects(id, rollNo)(ps[k]) {
      var k :| 0 <= k < |ps| && ps[k].id == pid && StudentSelects(id, rollNo)(ps[k]);
      assert ps[k] in mine;
      var i :| 0 <= i < |mine| && mine[i] == ps[k];
      assert ids[i] == pid;
    }
  }

  /** The reviewed documents of the student's projects, in table order. */
  function ReviewedOf(ps: seq<Project>, ds: seq<Document>, id: Id, rollNo: Option<string>): (r: seq<Document>)
    ensures forall i :: 0 <= i < |r| ==> r[i] in ds && r[i].status != DocPending
    ensures forall i :: 0 <= i < |r| ==> ProjectById(ps, r[i].project).Some?
    ensures forall j :: 0 <= j < |ds| ==>
              (ds[j] in r <==>
                 ds[j].status != DocPending
                 && exists k :: 0 <= k < |ps| && ps[k].id == ds[j].project && StudentSelects(id, rollNo)(ps[k]))
  {
    var mine := StudentProjects(ps, id, rollNo);
    var r := Filter(ds, ReviewedIn(ProjectIds(mine)));
    forall i | 0 <= i < |r| ensures ProjectById(ps, r[i].project).Some? {
      IdsResolve(ps, mine, r[i].project);
    }
    forall j | 0 <= j < |ds|
      ensures ds[j] in r <==>
                ds[j].status != DocPending
                && exists k :: 0 <= k < |ps| && ps[k].id == ds[j].project && StudentSelects(id, rollNo)(ps[k])
    {
      SelectedIds(ps, id, rollNo, ds[j].project);
    }
    r
  }

  /** The same documents, most recently updated first. */
  function ReviewedDocs(ps: seq<Project>, ds: seq<Document>, id: Id, rollNo: Option<string>): (r: seq<Document>)
    ensures SortedDesc(r, UpdatedAt)
    ensures forall i :: 0 <= i < |r| ==> r[i] in ReviewedOf(ps, ds, id, rollNo)
    ensures forall d :: d in ReviewedOf(ps, ds, id, rollNo) ==> d in r
  {
    var reviewed := ReviewedOf(ps, ds, id, rollNo);
    var r := SortDesc(reviewed, UpdatedAt);
    SortDescMembers(reviewed, UpdatedAt);
    r
  }

  /** `.sort({ updatedAt: -1 }).limit(5)`. */
  function RecentReviewed(ps: seq<Project>, ds: seq<Document>, id: Id, rollNo: Option<string>): (r: seq<Document>)
    ensures |r| <= FeedLimit
    ensures SortedDesc(r, UpdatedAt)
    ensures forall i :: 0 <= i < |r| ==> r[i] in ReviewedOf(ps, ds, id, rollNo)
    ensures forall i :: 0 <= i < |r| ==> ProjectById(ps, r[i].project).Some?
  {
    RecentFacts(ps, ds, id, rollNo);
    Take(ReviewedDocs(ps, ds, id, rollNo), FeedLimit)
  }

  /** What `RecentReviewed` promises, proved about the value it returns. */
  lemma RecentFacts(ps: seq<Project>, ds: seq<Document>, id: Id, rollNo: Option<string>)
    ensures var r := Take(ReviewedDocs(ps, ds, id, rollNo), FeedLimit);
            && SortedDesc(r, UpdatedAt)
            && (forall i :: 0 <= i < |r| ==> r[i] in ReviewedOf(ps, ds, id, rollNo))
            && (forall i :: 0 <= i < |r| ==> ProjectById(ps, r[i].project).Some?)
  {
    var all := ReviewedDocs(ps, ds, id, rollNo);
    var r := Take(all, FeedLimit);
    forall i | 0 <= i < |r| ensures r[i] in ReviewedOf(ps, ds, id, rollNo) && ProjectById(ps, r[i].project).Some? {
      assert r[i] == all[i];
      ReviewedResolves(ps, ds, id, rollNo, all[i]);
    }
  }

  /** A reviewed document's project exists. */
  lemma ReviewedResolves(ps: seq<Project>, ds: seq<Document>, id: Id, rollNo: Option<string>, d: Document)
    requires d in ReviewedOf(ps, ds, id, rollNo)
    ensures ProjectById(ps, d.project).Some?
  {
    var reviewed := ReviewedOf(ps, ds, id, rollNo);
    var j :| 0 <= j < |reviewed| && reviewed[j] == d;
  }

  /** A reviewed document of the caller's projects that is left out of the feed is older than
      (or as old as) each of the five that are shown. */
  lemma RecentReviewedKeepsNewest(ps: seq<Project>, ds: seq<Document>, id: Id, rollNo: Option<string>, j: nat)
    requires j < |ds| && ds[j] in ReviewedOf(ps, ds, id, rollNo)
    requires ds[j] !in RecentReviewed(ps, ds, id, rollNo)
    ensures |RecentReviewed(ps, ds, id, rollNo)| == FeedLimit
    ensures forall y :: y in RecentReviewed(ps, ds, id, rollNo) ==> y.updatedAt >= ds[j].updatedAt
  {
    var all := ReviewedDocs(ps, ds, id, rollNo);
    assert ds[j] in all;
    LimitKeepsLargest(all, UpdatedAt, FeedLimit, ds[j]);
  }

  /** `(mentor && mentor.name) || requestedMentorName || "Mentor"`: never empty. */
  function ReviewerName(users: seq<User>, p: Project): (r: string)
    ensures r != ""
    ensures Truthy(PopulatedName(users, p.mentor)) ==> r == PopulatedName(users, p.mentor).value
    ensures !Truthy(PopulatedName(users, p.mentor)) && p.requestedMentorName != "" ==> r == p.requestedMentorName
    ensures !Truthy(PopulatedName(users, p.mentor)) && p.requestedMentorName == "" ==> r == "Mentor"
  {
    OrElse(Some(OrElse(PopulatedName(users, p.mentor), p.requestedMentorName)), "Mentor")
  }

  /** `doc.project.mentor ? doc.project.mentor.name : 'Mentor'`. */
  function MentorNameOr(users: seq<User>, p: Project): string {
    match PopulatedName(users, p.mentor)
    case Some(n) => n
    case None => "Mentor"
  }

  function StatusMessage(docName: string, status: string, mentorName: string): string {
    "Document '" + docName + "' was " + status + " by " + mentorName + "."
  }

  /** `doc.status.toUpperCase()` of a reviewed document. */
  lemma ReviewedStatusLabel(s: DocStatus)
    requires s != DocPending
    ensures AsciiUpper(DocStatusName(s)) == if s == Approved then "APPROVED" else "REJECTED"
  {
    if s == Approved {
      UpperWord("approved", "APPROVED");
    } else {
      UpperWord("rejected", "REJECTED");
    }
  }

  function StudentEntry(d: Document, p: Project, users: seq<User>, caller: User): (e: FeedEntry)
    ensures e.id == d.id && e.document == Summary(d) && e.projectId == p.id
    ensures e.kind == StatusKind && e.studentName == caller.name
    ensures e.status == AsciiUpper(DocStatusName(d.status))
    ensures e.teacherName == ReviewerName(users, p)
    ensures e.message == StatusMessage(d.name, DocStatusName(d.status), MentorNameOr(users, p))
  {
    FeedEntry(d.id, p.id, ReviewerName(users, p), caller.name, AsciiUpper(DocStatusName(d.status)), Summary(d),
              StatusMessage(d.name, DocStatusName(d.status), MentorNameOr(users, p)), StatusKind)
  }

  /** The student's `requests`: at most five reviewed documents, newest update first, each
      labelled with its uppercased status. */
  function StudentFeed(ps: seq<Project>, ds: seq<Document>, users: seq<User>, caller: User, rollNo: Option<string>)
    : (r: seq<FeedEntry>)
    ensures |r| == |RecentReviewed(ps, ds, caller.id, rollNo)| <= FeedLimit
    ensures forall i :: 0 <= i < |r| ==>
              var d := RecentReviewed(ps, ds, caller.id, rollNo)[i];
              && r[i].id == d.id && r[i].projectId == d.project && r[i].document == Summary(d)
              && r[i].kind == StatusKind && r[i].studentName == caller.name
              && r[i].status in {"APPROVED", "REJECTED"} && r[i].teacherName != ""
    ensures forall i :: 0 <= i < |r| ==>
              var d := RecentReviewed(ps, ds, caller.id, rollNo)[i];
              && r[i].status == (if d.status == Approved then "APPROVED" else "REJECTED")
              && r[i].teacherName == ReviewerName(users, ProjectOf(ps, d))
  {
    var docs := RecentReviewed(ps, ds, caller.id, rollNo);
    var r := seq(|docs|, i requires 0 <= i < |docs| => StudentEntry(docs[i], ProjectOf(ps, docs[i]), users, caller));
    forall i | 0 <= i < |r|
      ensures r[i] == StudentEntry(docs[i], ProjectOf(ps, docs[i]), users, caller)
      ensures r[i].status == (if docs[i].status == Approved then "APPROVED" else "REJECTED")
    {
      ReviewedStatusLabel(docs[i].status);
    }
    r
  }

  // ---------------------------------------------------------------------------
  // The handler

  /**
   * The `all-assignments` handler behind `protect`. It destructures `req.user` before its
   * `try`, so a token whose user no longer exists leaves the request unanswered. The 403
   * branch for any other role cannot be reached: the schema admits only the two roles.
   */
  method AllAssignments(db: Database, caller: Option<User>) returns (st: Status, feed: Feed)
    ensures caller.None? ==> st == Unhandled && feed == Feed([], [])
    ensures caller.Some? ==> st == Ok
    ensures caller.Some? && caller.value.role == Teacher ==>
              feed == Feed(MentoredBy(db.projects, caller.value.id),
                           TeacherFeed(db.projects, db.documents, db.users, caller.value))
    ensures caller.Some? && caller.value.role == Student ==>
              feed == Feed(StudentProjects(db.projects, caller.value.id, None),
                           StudentFeed(db.projects, db.documents, db.users, caller.value, None))
  {
    if caller.None? {
      return Unhandled, Feed([], []);
    }
    var user := caller.value;
    var projectsToSend: seq<Project>;
    var pendingRequests: seq<FeedEntry>;
    if user.role == Teacher {
      projectsToSend := MentoredBy(db.projects, user.id);
      pendingRequests := TeacherFeed(db.projects, db.documents, db.users, user);
    } else {
      var rollNo: Option<string> := None;  // `req.user.rollNo` is never set
      projectsToSend := StudentProjects(db.projects, user.id, rollNo);
      pendingRequests := StudentFeed(db.projects, db.documents, db.users, user, rollNo);
    }
    st := Ok;
    feed := Feed(projectsToSend, pendingRequests);
  }
}
