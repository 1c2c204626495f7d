/**
 * The client's project data context: two pieces of provider state, `projects` and
 * `pendingRequests`, and the write functions that replace them with values computed by
 * `find`, `filter`, `map` and spread. Each new value is a pure function below; the
 * `Provider` class holds the two state cells and applies them.
 *
 * JavaScript values that may be `undefined` are `Option`s, and `===` on them is Dafny
 * equality: strings equal strings with the same characters, numbers equal numbers, a
 * string never equals a number, and `undefined === undefined`.
 */
module DataContext {
  import opened Wrappers
  import opened Lists
  import opened JsStrings

  /** An id as the client holds it: a server ObjectId string or a `Date.now()` number. */
  datatype Key = Text(text: string) | Number(n: int)

  /** A document inside a project's `documents` list. */
  datatype ClientDocument = ClientDocument(dbId: Option<Key>, id: Option<Key>, name: Option<string>, status: string)

  /** `{ id, teacher, text, date }`. */
  datatype Remark = Remark(id: Key, teacher: Option<string>, text: string, date: string)

  /**
   * A project in the client list. `mentorName` is `project.mentor && project.mentor.name`
   * when that is a string (none when the mentor is null, an unpopulated id, or nameless);
   * `documents` and `remarks` are absent when the server sent none.
   */
  datatype ClientProject = ClientProject(
    projectId: Option<Key>,
    dbId: Option<Key>,
    title: Option<string>,
    mentorName: Option<string>,
    requestedMentorName: Option<string>,
    status: Option<string>,
    documents: Option<seq<ClientDocument>>,
    remarks: Option<seq<Remark>>)

  datatype RequestDocument = RequestDocument(id: Option<Key>, name: Option<string>, shortDesc: Option<string>,
                                             uploadedOn: string)

  /** An element of `pendingRequests`. */
  datatype Request = Request(
    id: Option<Key>,
    projectId: Option<Key>,
    teacherName: string,
    studentName: Option<string>,
    status: string,
    document: RequestDocument,
    message: string,
    kind: string)

  /** The `docDetails` a student submits. */
  datatype DocDetails = DocDetails(name: Option<string>, description: Option<string>)

  /** `p.projectId === projectId || p._id === projectId`. */
  function Matches(key: Option<Key>): ClientProject -> bool {
    (p: ClientProject) => p.projectId == key || p.dbId == key
  }

  /** A key that is absent matches every project that lacks one of its two ids. */
  lemma AbsentKeyMatchesIdless(p: ClientProject)
    requires p.projectId.None? || p.dbId.None?
    ensures Matches(None)(p)
  {
  }

  // ---------------------------------------------------------------------------
  // 2.1 requestDocumentApproval

  /** `(project.mentor && project.mentor.name) || project.requestedMentorName || "Mentor"`. */
  function TeacherLabel(p: ClientProject): (r: string)
    ensures r != ""
    ensures Truthy(p.mentorName) ==> r == p.mentorName.value
    ensures !Truthy(p.mentorName) && Truthy(p.requestedMentorName) ==> r == p.requestedMentorName.value
    ensures !Truthy(p.mentorName) && !Truthy(p.requestedMentorName) ==> r == "Mentor"
  {
    OrElse(Some(OrElse(p.mentorName, OrElse(p.requestedMentorName, ""))), "Mentor")
  }

  /** The request a submission adds: id `now`, its document `now + 1`, dated `today`. */
  function ApprovalRequest(p: ClientProject, projectId: Option<Key>, details: DocDetails,
                           studentName: Option<string>, now: int, today: string): (q: Request)
    ensures q.status == "PENDING" && q.kind == "DOCUMENT_APPROVAL"
    ensures q.id == Some(Number(now)) && q.document.id == Some(Number(now + 1))
    ensures q.projectId == projectId && q.studentName == studentName
    ensures q.teacherName == TeacherLabel(p)
    ensures q.document == RequestDocument(Some(Number(now + 1)), details.name, details.description, today)
  {
    Request(Some(Number(now)), projectId, TeacherLabel(p), studentName, "PENDING",
            RequestDocument(Some(Number(now + 1)), details.name, details.description, today),
            "New file submitted by " + Interpolate(studentName) + " for Project: " + Interpolate(p.title)
              + ". Requires review.",
            "DOCUMENT_APPROVAL")
  }

  /** `projects.find(...)`, then the new request list: unchanged and `false` when no project
      matches, one request longer and `true` otherwise. */
  function RequestApproval(ps: seq<ClientProject>, requests: seq<Request>, projectId: Option<Key>,
                           details: DocDetails, studentName: Option<string>, now: int, today: string)
    : (r: (bool, seq<Request>))
    ensures r.0 <==> exists i :: 0 <= i < |ps| && Matches(projectId)(ps[i])
    ensures !r.0 ==> r.1 == requests
    ensures r.0 ==> |r.1| == |requests| + 1 && r.1[..|requests|] == requests
    ensures r.0 ==>
              var k := FirstIndex(ps, Matches(projectId)).value;
              r.1[|requests|] == ApprovalRequest(ps[k], projectId, details, studentName, now, today)
  {
    match FirstIndex(ps, Matches(projectId))
    case None => (false, requests)
    case Some(k) => (true, requests + [ApprovalRequest(ps[k], projectId, details, studentName, now, today)])
  }

  /** The request is built from the first project the key matches, whatever follows it. */
  lemma ApprovalUsesFirstMatch(ps: seq<ClientProject>, requests: seq<Request>, projectId: Option<Key>,
                               details: DocDetails, studentName: Option<string>, now: int, today: string, k: nat)
    requires k < |ps| && Matches(projectId)(ps[k])
    requires forall j :: 0 <= j < k ==> !Matches(projectId)(ps[j])
    ensures RequestApproval(ps, requests, projectId, details, studentName, now, today).1
            == requests + [ApprovalRequest(ps[k], projectId, details, studentName, now, today)]
  {
    var f := FirstIndex(ps, Matches(projectId));
    assert f.Some?;
    assert f.value == k;
  }

  // ---------------------------------------------------------------------------
  // 2.2 handleDocumentRequest

  function NotId(id: Option<Key>): Request -> bool {
    (q: Request) => q.id != id
  }

  /** `prevRequests.filter(r => r.id !== requestId)`. */
  function WithoutRequest(requests: seq<Request>, id: Option<Key>): (r: seq<Request>)
    ensures forall i :: 0 <= i < |r| ==> r[i].id != id && r[i] in requests
    ensures forall i :: 0 <= i < |requests| ==> (requests[i] in r <==> requests[i].id != id)
  {
    Filter(requests, NotId(id))
  }

  /** Removing a request leaves the others in their order: removal distributes over the
      list, and a second removal of the same id changes nothing. */
  lemma WithoutRequestKeepsOrder(a: seq<Request>, b: seq<Request>, id: Option<Key>)
    ensures WithoutRequest(a + b, id) == WithoutRequest(a, id) + WithoutRequest(b, id)
    ensures WithoutRequest(WithoutRequest(a, id), id) == WithoutRequest(a, id)
  {
    FilterConcat(a, b, NotId(id));
    FilterFilter(a, NotId(id), NotId(id), NotId(id));
  }

  /** Requests with other ids are all kept. */
  lemma WithoutOtherRequest(requests: seq<Request>, id: Option<Key>)
    requires forall i :: 0 <= i < |requests| ==> requests[i].id != id
    ensures WithoutRequest(requests, id) == requests
  {
    FilterAll(requests, NotId(id));
  }

  /** `action === 'accept' ? 'approved' : 'rejected'`. */
  function ReviewStatus(action: Option<string>): (s: string)
    ensures s == "approved" <==> action == Some("accept")
    ensures s != "approved" ==> s == "rejected"
  {
    if action == Some("accept") then "approved" else "rejected"
  }

  /** `(d._id === doc.id || d.id === doc.id) ? { ...d, status } : d`. */
  function ReviewDocument(d: ClientDocument, docId: Option<Key>, status: string): (r: ClientDocument)
    ensures r.dbId == d.dbId && r.id == d.id && r.name == d.name
    ensures (d.dbId == docId || d.id == docId) ==> r.status == status
    ensures !(d.dbId == docId || d.id == docId) ==> r == d
  {
    if d.dbId == docId || d.id == docId then d.(status := status) else d
  }

  /** `p.documents.map(...)` for one project's list. */
  function ReviewDocuments(ds: seq<ClientDocument>, docId: Option<Key>, status: string): (r: seq<ClientDocument>)
    ensures |r| == |ds|
    ensures forall i :: 0 <= i < |ds| ==> r[i] == ReviewDocument(ds[i], docId, status)
  {
    seq(|ds|, i requires 0 <= i < |ds| => ReviewDocument(ds[i], docId, status))
  }

  /**
   * The `setProjects` updater of `handleDocumentRequest`. A matching project whose
   * `documents` is absent makes `p.documents.map` throw; that outcome is `None`.
   */
  function WithDocumentStatus(ps: seq<ClientProject>, projectId: Option<Key>, docId: Option<Key>, status: string)
    : (r: Option<seq<ClientProject>>)
    ensures r.None? <==> exists i :: 0 <= i < |ps| && Matches(projectId)(ps[i]) && ps[i].documents.None?
    ensures r.Some? ==> |r.value| == |ps|
    ensures r.Some? ==> forall i :: 0 <= i < |ps| && !Matches(projectId)(ps[i]) ==> r.value[i] == ps[i]
    ensures r.Some? ==> forall i :: 0 <= i < |ps| && Matches(projectId)(ps[i]) ==>
              && ps[i].documents.Some?
              && r.value[i] == ps[i].(documents := Some(ReviewDocuments(ps[i].documents.value, docId, status)))
  {
    if exists i :: 0 <= i < |ps| && Matches(projectId)(ps[i]) && ps[i].documents.None? then None
    else Some(seq(|ps|, i requires 0 <= i < |ps| =>
                if Matches(projectId)(ps[i])
                then ps[i].(documents := Some(ReviewDocuments(ps[i].documents.value, docId, status)))
                else ps[i]))
  }

  /** After a review, a document of a matching project that has the reviewed id carries the
      new status, and every other document is exactly as it was. */
  lemma ReviewTouchesOnlyThatDocument(ps: seq<ClientProject>, projectId: Option<Key>, docId: Option<Key>,
                                      status: string, i: nat, j: nat)
    requires WithDocumentStatus(ps, projectId, docId, status).Some?
    requires i < |ps| && ps[i].documents.Some? && j < |ps[i].documents.value|
    ensures var after := WithDocumentStatus(ps, projectId, docId, status).value[i];
            var d := ps[i].documents.value[j];
            && after.documents.Some? && |after.documents.value| == |ps[i].documents.value|
            && (Matches(projectId)(ps[i]) && (d.dbId == docId || d.id == docId) ==>
                  after.documents.value[j] == d.(status := status))
            && (!(Matches(projectId)(ps[i]) && (d.dbId == docId || d.id == docId)) ==>
                  after.documents.value[j] == d)
  {
  }

  /** Re-applying the same review changes nothing. */
  lemma ReviewIdempotent(ps: seq<ClientProject>, projectId: Option<Key>, docId: Option<Key>, status: string)
    requires WithDocumentStatus(ps, projectId, docId, status).Some?
    ensures var once := WithDocumentStatus(ps, projectId, docId, status).value;
            WithDocumentStatus(once, projectId, docId, status) == Some(once)
  {
    var once := WithDocumentStatus(ps, projectId, docId, status).value;
    forall i | 0 <= i < |once| && Matches(projectId)(once[i])
      ensures once[i].documents.Some?
      ensures once[i].(documents := Some(ReviewDocuments(once[i].documents.value, docId, status))) == once[i]
    {
      assert once[i].projectId == ps[i].projectId && once[i].dbId == ps[i].dbId;
      var ds := ps[i].documents.value;
      var r1 := ReviewDocuments(ds, docId, status);
      assert ReviewDocuments(r1, docId, status) == r1;
    }
    var twice := WithDocumentStatus(once, projectId, docId, status);
    assert twice.Some?;
    assert twice.value == once;
  }

  /** `Document '${doc.name}' ${status}.` */
  function ReviewMessage(name: Option<string>, status: string): string {
    "Document '" + Interpolate(name) + "' " + status + "."
  }

  // ---------------------------------------------------------------------------
  // 2.3 addRemark and 2.4 updateProjectStatus

  /** The updater of `addRemark`: `remarks: [...p.remarks, newRemarkObj]` on each matching
      project. A matching project without `remarks` makes the spread throw (`None`). */
  function WithRemark(ps: seq<ClientProject>, projectId: Option<Key>, remark: Remark)
    : (r: Option<seq<ClientProject>>)
    ensures r.None? <==> exists i :: 0 <= i < |ps| && Matches(projectId)(ps[i]) && ps[i].remarks.None?
    ensures r.Some? ==> |r.value| == |ps|
    ensures r.Some? ==> forall i :: 0 <= i < |ps| && !Matches(projectId)(ps[i]) ==> r.value[i] == ps[i]
    ensures r.Some? ==> forall i :: 0 <= i < |ps| && Matches(projectId)(ps[i]) ==>
              && ps[i].remarks.Some?
              && r.value[i] == ps[i].(remarks := Some(ps[i].remarks.value + [remark]))
  {
    if exists i :: 0 <= i < |ps| && Matches(projectId)(ps[i]) && ps[i].remarks.None? then None
    else Some(seq(|ps|, i requires 0 <= i < |ps| =>
                if Matches(projectId)(ps[i]) then ps[i].(remarks := Some(ps[i].remarks.value + [remark]))
                else ps[i]))
  }

  /** The remark built from the teacher's text: trimmed, with id `now` and date `today`. */
  function NewRemark(text: string, teacherName: Option<string>, now: int, today: string): (m: Remark)
    ensures m.text == Trim(m.text) && m.text == Trim(text)
  {
    TrimIdempotent(text);
    Remark(Number(now), teacherName, Trim(text), today)
  }

  /** Each matching project gains exactly that one remark at the end of its list; no remark
      is lost or reordered. */
  lemma RemarkAppendsOne(ps: seq<ClientProject>, projectId: Option<Key>, remark: Remark, i: nat)
    requires WithRemark(ps, projectId, remark).Some? && i < |ps| && Matches(projectId)(ps[i])
    ensures var after := WithRemark(ps, projectId, remark).value[i].remarks;
            && after.Some? && |after.value| == |ps[i].remarks.value| + 1
            && after.value[..|ps[i].remarks.value|] == ps[i].remarks.value
            && after.value[|ps[i].remarks.value|] == remark
  {
    var after := WithRemark(ps, projectId, remark).value[i].remarks;
    assert after.value == ps[i].remarks.value + [remark];
  }

  /** The updater of `updateProjectStatus`: `status` set on each matching project. */
  function WithStatus(ps: seq<ClientProject>, projectId: Option<Key>, newStatus: Option<string>)
    : (r: seq<ClientProject>)
    ensures |r| == |ps|
    ensures forall i :: 0 <= i < |ps| && !Matches(projectId)(ps[i]) ==> r[i] == ps[i]
    ensures forall i :: 0 <= i < |ps| && Matches(projectId)(ps[i]) ==> r[i] == ps[i].(status := newStatus)
  {
    seq(|ps|, i requires 0 <= i < |ps| => if Matches(projectId)(ps[i]) then ps[i].(status := newStatus) else ps[i])
  }

  /** Setting a status twice is setting it once, and the later of two settings wins. */
  lemma WithStatusLastWins(ps: seq<ClientProject>, projectId: Option<Key>, s1: Option<string>, s2: Option<string>)
    ensures WithStatus(WithStatus(ps, projectId, s1), projectId, s2) == WithStatus(ps, projectId, s2)
  {
    var a := WithStatus(WithStatus(ps, projectId, s1), projectId, s2);
    var b := WithStatus(ps, projectId, s2);
    forall i | 0 <= i < |ps| ensures a[i] == b[i] {
      assert WithStatus(ps, projectId, s1)[i].projectId == ps[i].projectId;
      assert WithStatus(ps, projectId, s1)[i].dbId == ps[i].dbId;
    }
  }

  /** `success`: set by the updater when some project matches. */
  predicate AnyMatch(ps: seq<ClientProject>, projectId: Option<Key>) {
    exists i :: 0 <= i < |ps| && Matches(projectId)(ps[i])
  }

  // ---------------------------------------------------------------------------
  // The provider

  /** What `axios.get` of the feed yields: `None` when the request fails. */
  datatype FeedResponse = FeedResponse(projects: Option<seq<ClientProject>>, requests: Option<seq<Request>>)

  /**
   * The provider's two state cells. Each setter call is applied at once, as if React ran the
   * updater synchronously with the current state.
   */
  class Provider {
    var projects: seq<ClientProject>
    var pendingRequests: seq<Request>

    constructor ()
      ensures projects == [] && pendingRequests == []
    {
      projects := [];
      pendingRequests := [];
    }

    /** `fetchProjectData`: the response's lists, with `|| []` for missing ones, or two
        empty lists when the request fails. */
    method FetchProjectData(response: Option<FeedResponse>)
      modifies this
      ensures response.None? ==> projects == [] && pendingRequests == []
      ensures response.Some? ==> projects == response.value.projects.GetOr([])
                                 && pendingRequests == response.value.requests.GetOr([])
    {
      if response.None? {
        projects := [];
        pendingRequests := [];
      } else {
        projects := response.value.projects.GetOr([]);
        pendingRequests := response.value.requests.GetOr([]);
      }
    }

    method RequestDocumentApproval(projectId: Option<Key>, details: DocDetails, studentName: Option<string>,
                                   now: int, today: string) returns (ok: bool)
      modifies this`pendingRequests
      ensures ok <==> AnyMatch(projects, projectId)
      ensures !ok ==> pendingRequests == old(pendingRequests)
      ensures ok ==> pendingRequests == old(pendingRequests) +
                       [ApprovalRequest(projects[FirstIndex(projects, Matches(projectId)).value], projectId,
                                        details, studentName, now, today)]
    {
      var r := RequestApproval(projects, pendingRequests, projectId, details, studentName, now, today);
      if r.0 {
        pendingRequests := r.1;
        assert pendingRequests == old(pendingRequests) + [pendingRequests[|old(pendingRequests)|]];
      }
      ok := r.0;
    }

    /**
     * `handleDocumentRequest`. The request is removed first, whatever happens next.
     * `serverOk` is whether the status `PUT` succeeded; only then are the projects updated.
     * A matching project without `documents` leaves the projects as they were (the updater
     * throws during rendering).
     */
    method HandleDocumentRequest(requestId: Option<Key>, projectId: Option<Key>, doc: RequestDocument,
                                 action: Option<string>, serverOk: bool)
      returns (success: bool, message: string)
      modifies this
      ensures pendingRequests == WithoutRequest(old(pendingRequests), requestId)
      ensures success == serverOk
      ensures !serverOk ==> projects == old(projects) && message == "Failed to update status on server."
      ensures serverOk ==> message == ReviewMessage(doc.name, ReviewStatus(action))
      ensures serverOk ==>
                projects == WithDocumentStatus(old(projects), projectId, doc.id, ReviewStatus(action))
                              .GetOr(old(projects))
    {
      pendingRequests := WithoutRequest(pendingRequests, requestId);
      var status := ReviewStatus(action);
      if !serverOk {
        return false, "Failed to update status on server.";
      }
      projects := WithDocumentStatus(projects, projectId, doc.id, status).GetOr(projects);
      success := true;
      message := ReviewMessage(doc.name, status);
    }

    method AddRemark(projectId: Option<Key>, remarkText: string, teacherName: Option<string>, now: int, today: string)
      returns (success: bool)
      modifies this`projects
      ensures success <==> AnyMatch(old(projects), projectId)
      ensures projects == WithRemark(old(projects), projectId, NewRemark(remarkText, teacherName, now, today))
                            .GetOr(old(projects))
    {
      var remark := NewRemark(remarkText, teacherName, now, today);
      success := AnyMatch(projects, projectId);
      projects := WithRemark(projects, projectId, remark).GetOr(projects);
    }

    method UpdateProjectStatus(projectId: Option<Key>, newStatus: Option<string>) returns (success: bool)
      modifies this`projects
      ensures success <==> AnyMatch(old(projects), projectId)
      ensures projects == WithStatus(old(projects), projectId, newStatus)
    {
      success := AnyMatch(projects, projectId);
      projects := WithStatus(projects, projectId, newStatus);
    }
  }
}
