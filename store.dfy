/**
 * The four MongoDB collections as in-memory tables, in natural (insertion) order, and the
 * lookups the controllers perform on them. `nextId` stands for ObjectId generation: every
 * created record takes it and it grows, so ids never repeat.
 */
module Store {
  import opened Wrappers
  import opened Lists
  import opened Schema

  // ---------------------------------------------------------------------------
  // Table invariants: fresh, distinct ids and the schema's validators

  predicate UsersOk(us: seq<User>, bound: Id) {
    && (forall i :: 0 <= i < |us| ==> us[i].id < bound && ValidUser(us[i]))
    && (forall i, j :: 0 <= i < j < |us| ==> us[i].id != us[j].id)
    && UniqueUsers(us)
  }

  predicate ProjectsOk(ps: seq<Project>, bound: Id) {
    && (forall i :: 0 <= i < |ps| ==> ps[i].id < bound && ValidProject(ps[i]))
    && (forall i, j :: 0 <= i < j < |ps| ==> ps[i].id != ps[j].id)
  }

  predicate DocumentsOk(ds: seq<Document>, bound: Id) {
    && (forall i :: 0 <= i < |ds| ==> ds[i].id < bound && ValidDocument(ds[i]))
    && (forall i, j :: 0 <= i < j < |ds| ==> ds[i].id != ds[j].id)
  }

  predicate NotificationsOk(ns: seq<Notification>, bound: Id) {
    && (forall i :: 0 <= i < |ns| ==> ns[i].id < bound && ValidNotification(ns[i]))
    && (forall i, j :: 0 <= i < j < |ns| ==> ns[i].id != ns[j].id)
  }

  /** The notification log only grows, and the one change to a stored entry is its
      `isRead` flag becoming true. */
  predicate LogExtends(before: seq<Notification>, after: seq<Notification>) {
    |before| <= |after|
    && forall i :: 0 <= i < |before| ==>
         after[i] == before[i] || after[i] == before[i].(isRead := true)
  }

  lemma LogExtendsTransitive(a: seq<Notification>, b: seq<Notification>, c: seq<Notification>)
    requires LogExtends(a, b) && LogExtends(b, c)
    ensures LogExtends(a, c)
    ensures forall i :: 0 <= i < |a| && a[i].isRead ==> c[i].isRead
  {
  }

  // ---------------------------------------------------------------------------
  // The lookups (findById / findOne), each the first match in natural order

  function UserById(us: seq<User>, id: Id): (r: Option<nat>)
    ensures r.Some? ==> r.value < |us| && us[r.value].id == id
    ensures r.None? <==> forall j :: 0 <= j < |us| ==> us[j].id != id
  {
    FirstIndex(us, (u: User) => u.id == id)
  }

  /** `User.findOne({ email })`; an absent email matches no stored user. */
  function UserByEmail(us: seq<User>, email: Option<string>): (r: Option<nat>)
    ensures r.Some? ==> r.value < |us| && Some(us[r.value].email) == email
    ensures r.None? <==> forall j :: 0 <= j < |us| ==> Some(us[j].email) != email
  {
    FirstIndex(us, (u: User) => Some(u.email) == email)
  }

  /** `User.findOne({ name, role: 'teacher' })`. */
  function TeacherByName(us: seq<User>, name: string): (r: Option<nat>)
    ensures r.Some? ==> r.value < |us| && us[r.value].name == name && us[r.value].role == Teacher
    ensures r.None? <==> forall j :: 0 <= j < |us| ==> !(us[j].name == name && us[j].role == Teacher)
  {
    FirstIndex(us, (u: User) => u.name == name && u.role == Teacher)
  }

  function ProjectById(ps: seq<Project>, id: Id): (r: Option<nat>)
    ensures r.Some? ==> r.value < |ps| && ps[r.value].id == id
    ensures r.None? <==> forall j :: 0 <= j < |ps| ==> ps[j].id != id
  {
    FirstIndex(ps, (p: Project) => p.id == id)
  }

  /** `Project.findOne({ student })`: the first project the user leads. */
  function ProjectByLeader(ps: seq<Project>, leader: Id): (r: Option<nat>)
    ensures r.Some? ==> r.value < |ps| && ps[r.value].student == leader
    ensures r.Some? ==> forall j :: 0 <= j < r.value ==> ps[j].student != leader
    ensures r.None? <==> forall j :: 0 <= j < |ps| ==> ps[j].student != leader
  {
    FirstIndex(ps, (p: Project) => p.student == leader)
  }

  /** `Project.findOne({ _id, student })`: the project, if the user leads it. */
  function OwnedProject(ps: seq<Project>, id: Id, leader: Id): (r: Option<nat>)
    ensures r.Some? ==> r.value < |ps| && ps[r.value].id == id && ps[r.value].student == leader
    ensures r.None? <==> forall j :: 0 <= j < |ps| ==> !(ps[j].id == id && ps[j].student == leader)
  {
    FirstIndex(ps, (p: Project) => p.id == id && p.student == leader)
  }

  function DocumentById(ds: seq<Document>, id: Id): (r: Option<nat>)
    ensures r.Some? ==> r.value < |ds| && ds[r.value].id == id
    ensures r.None? <==> forall j :: 0 <= j < |ds| ==> ds[j].id != id
  {
    FirstIndex(ds, (d: Document) => d.id == id)
  }

  /** `Document.findOne({ fileName })`. */
  function DocumentByFileName(ds: seq<Document>, fileName: string): (r: Option<nat>)
    ensures r.Some? ==> r.value < |ds| && ds[r.value].fileName == fileName
    ensures r.None? <==> forall j :: 0 <= j < |ds| ==> ds[j].fileName != fileName
  {
    FirstIndex(ds, (d: Document) => d.fileName == fileName)
  }

  function NotificationById(ns: seq<Notification>, id: Id): (r: Option<nat>)
    ensures r.Some? ==> r.value < |ns| && ns[r.value].id == id
    ensures r.None? <==> forall j :: 0 <= j < |ns| ==> ns[j].id != id
  {
    FirstIndex(ns, (n: Notification) => n.id == id)
  }

  /** The filter `{ project }` on documents. */
  function BelongsTo(project: Id): Document -> bool {
    (d: Document) => d.project == project
  }

  /** `Document.find({ project })`: the documents of one project, in table order. */
  function DocumentsOf(ds: seq<Document>, project: Id): (r: seq<Document>)
    ensures forall i :: 0 <= i < |r| ==> r[i] in ds && r[i].project == project
    ensures forall i :: 0 <= i < |ds| ==> (ds[i] in r <==> ds[i].project == project)
  {
    Filter(ds, BelongsTo(project))
  }

  /** Removing the record at `k` from a table. */
  function RemoveAt<T>(s: seq<T>, k: nat): (r: seq<T>)
    requires k < |s|
    ensures |r| == |s| - 1
    ensures forall i :: 0 <= i < k ==> r[i] == s[i]
    ensures forall i :: k <= i < |r| ==> r[i] == s[i + 1]
  {
    s[..k] + s[k + 1..]
  }

  // ---------------------------------------------------------------------------
  // How the table invariants survive create, save and deleteOne

  lemma UsersAppend(us: seq<User>, u: User, bound: Id, next: Id)
    requires UsersOk(us, bound) && bound <= u.id < next && ValidUser(u) && NoCollision(us, u)
    ensures UsersOk(us + [u], next)
  {
    UniqueAppend(us, u);
  }

  /** Saving a user whose id and indexed fields are unchanged keeps the table consistent. */
  lemma UsersUpdate(us: seq<User>, k: nat, u: User, bound: Id)
    requires UsersOk(us, bound) && k < |us| && ValidUser(u)
    requires u.id == us[k].id && u.email == us[k].email
    requires u.rollNumber == us[k].rollNumber && u.employeeId == us[k].employeeId
    ensures UsersOk(us[k := u], bound)
  {
    var vs := us[k := u];
    forall i, j | 0 <= i < j < |vs|
      ensures vs[i].email != vs[j].email
      ensures vs[i].rollNumber.Some? && vs[j].rollNumber.Some? ==> vs[i].rollNumber != vs[j].rollNumber
      ensures vs[i].employeeId.Some? && vs[j].employeeId.Some? ==> vs[i].employeeId != vs[j].employeeId
    {
      assert us[i].email != us[j].email;
    }
  }

  lemma ProjectsAppend(ps: seq<Project>, p: Project, bound: Id, next: Id)
    requires ProjectsOk(ps, bound) && bound <= p.id < next && ValidProject(p)
    ensures ProjectsOk(ps + [p], next)
  {
  }

  lemma ProjectsUpdate(ps: seq<Project>, k: nat, p: Project, bound: Id)
    requires ProjectsOk(ps, bound) && k < |ps| && p.id == ps[k].id && ValidProject(p)
    ensures ProjectsOk(ps[k := p], bound)
  {
  }

  lemma DocumentsAppend(ds: seq<Document>, d: Document, bound: Id, next: Id)
    requires DocumentsOk(ds, bound) && bound <= d.id < next && ValidDocument(d)
    ensures DocumentsOk(ds + [d], next)
  {
  }

  lemma DocumentsUpdate(ds: seq<Document>, k: nat, d: Document, bound: Id)
    requires DocumentsOk(ds, bound) && k < |ds| && d.id == ds[k].id && ValidDocument(d)
    ensures DocumentsOk(ds[k := d], bound)
  {
  }

  lemma DocumentsRemove(ds: seq<Document>, k: nat, bound: Id)
    requires DocumentsOk(ds, bound) && k < |ds|
    ensures DocumentsOk(RemoveAt(ds, k), bound)
  {
    var r := RemoveAt(ds, k);
    forall i, j | 0 <= i < j < |r| ensures r[i].id != r[j].id {
      var i' := if i < k then i else i + 1;
      var j' := if j < k then j else j + 1;
      assert r[i] == ds[i'] && r[j] == ds[j'];
    }
  }

  lemma NotificationsAppend(ns: seq<Notification>, n: Notification, bound: Id, next: Id)
    requires NotificationsOk(ns, bound) && bound <= n.id < next && ValidNotification(n)
    ensures NotificationsOk(ns + [n], next)
  {
  }

  lemma NotificationsUpdate(ns: seq<Notification>, k: nat, n: Notification, bound: Id)
    requires NotificationsOk(ns, bound) && k < |ns| && n.id == ns[k].id && ValidNotification(n)
    ensures NotificationsOk(ns[k := n], bound)
  {
  }

  // ---------------------------------------------------------------------------
  // The database

  class Database {
    var users: seq<User>
    var projects: seq<Project>
    var documents: seq<Document>
    var notifications: seq<Notification>
    var nextId: Id

    ghost predicate Valid()
      reads this
    {
      && UsersOk(users, nextId)
      && ProjectsOk(projects, nextId)
      && DocumentsOk(documents, nextId)
      && NotificationsOk(notifications, nextId)
    }

    constructor ()
      ensures Valid()
      ensures users == [] && projects == [] && documents == [] && notifications == []
    {
      users, projects, documents, notifications := [], [], [], [];
      nextId := 0;
    }

    /** A new ObjectId, distinct from every id handed out before. */
    method FreshId() returns (id: Id)
      modifies this`nextId
      ensures id == old(nextId) && nextId == old(nextId) + 1
    {
      id := nextId;
      nextId := nextId + 1;
    }

    /** `User.create` of a record that carries the next fresh id and passes validation and
        the unique indexes. */
    method InsertUser(u: User)
      requires Valid() && u.id == nextId && ValidUser(u) && NoCollision(users, u)
      modifies this
      ensures Valid() && nextId == old(nextId) + 1
      ensures users == old(users) + [u]
      ensures projects == old(projects) && documents == old(documents) && notifications == old(notifications)
    {
      var id := FreshId();
      UsersAppend(users, u, id, nextId);
      users := users + [u];
    }

    /** `Project.create` of a record that carries the next fresh id and validates. */
    method InsertProject(p: Project)
      requires Valid() && p.id == nextId && ValidProject(p)
      modifies this
      ensures Valid() && nextId == old(nextId) + 1
      ensures projects == old(projects) + [p]
      ensures users == old(users) && documents == old(documents) && notifications == old(notifications)
    {
      var id := FreshId();
      ProjectsAppend(projects, p, id, nextId);
      projects := projects + [p];
    }

    /** `Document.create` of a record that carries the next fresh id and validates. */
    method InsertDocument(d: Document)
      requires Valid() && d.id == nextId && ValidDocument(d)
      modifies this
      ensures Valid() && nextId == old(nextId) + 1
      ensures documents == old(documents) + [d]
      ensures users == old(users) && projects == old(projects) && notifications == old(notifications)
    {
      var id := FreshId();
      DocumentsAppend(documents, d, id, nextId);
      documents := documents + [d];
    }

    /** `Notification.create` of a record that carries the next fresh id and validates. */
    method InsertNotification(n: Notification)
      requires Valid() && n.id == nextId && ValidNotification(n)
      modifies this
      ensures Valid() && nextId == old(nextId) + 1
      ensures notifications == old(notifications) + [n]
      ensures users == old(users) && projects == old(projects) && documents == old(documents)
    {
      var id := FreshId();
      NotificationsAppend(notifications, n, id, nextId);
      notifications := notifications + [n];
    }

    /** `project.save()` of a valid record with the same id. */
    method SaveProject(k: nat, p: Project)
      requires Valid() && k < |projects| && p.id == projects[k].id && ValidProject(p)
      modifies this`projects
      ensures Valid()
      ensures projects == old(projects)[k := p]
    {
      ProjectsUpdate(projects, k, p, nextId);
      projects := projects[k := p];
    }

    /** `document.save()` of a valid record with the same id. */
    method SaveDocument(k: nat, d: Document)
      requires Valid() && k < |documents| && d.id == documents[k].id && ValidDocument(d)
      modifies this`documents
      ensures Valid()
      ensures documents == old(documents)[k := d]
    {
      DocumentsUpdate(documents, k, d, nextId);
      documents := documents[k := d];
    }
  }
}
