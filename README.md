# Project-Dashboard review workflow, in Dafny

This project models the server side of a student-project tracker. Students register together
with a project and its team roster, upload documents, and read their mentor's feedback.
Teachers accept or reject mentorship requests, review documents and leave remarks. The
client's project data context is modelled too.

The four MongoDB collections are four in-memory tables: users, projects, documents and
notifications. They are `seq` fields of one `Store.Database` object, kept in insertion order,
with `nextId` standing for ObjectId generation. `Database.Valid()` holds these invariants:

- ids are fresh and distinct in every table;
- every record passes its schema's `required` and enum checks;
- email, roll number and employee id are unique among users.

Every request handler that changes state is a method on the database (`modifies db`). It walks
the same guards, in the same order, as the controller. It returns an `Http.Status` and leaves
the tables as the controller's writes leave them. Read-only handlers and derived feeds are
functions.

`Http.Status` has two outcomes besides the HTTP codes:

- `ServerError` is the 500 that a handler's own `catch` sends;
- `Unhandled` is an exception thrown outside any `try` in an async handler, which Express 4
  never answers. Examples: `updateMentorStatus` on a project whose mentor is null, and
  `authUser` with a missing password. It surfaces as an unhandled promise rejection, and the
  server installs no `unhandledRejection` handler. On Node 15 and later the rejection
  therefore terminates the whole server process; on earlier versions only that request
  hangs. The model records the outcome and does not depend on which of the two happens.

Modules, following the source files:

| module | file | models |
|---|---|---|
| `Schema` | schema.dfy | the four Mongoose schemas: enums, defaults, required fields, unique indexes |
| `Store` | store.dfy | the tables, their invariants, and the `findById`/`findOne` lookups |
| `Users` | users.dfy | `registerUser`, `authUser`, `updateUserProfile` |
| `Auth` | auth.dfy | `protect`, `restrictTo` and the route table's middleware chains |
| `Projects` | projects.dfy | every handler of the project controller |
| `Feeds` | feeds.dfy | the `/all-assignments` route: teacher and student feeds |
| `Notifications` | notifications.dfy | listing and marking notifications read |
| `DataContext` | data_context.dfy | the React provider's state and its list transforms |
| `Lists`, `JsStrings`, `Wrappers`, `Http` | | `find`/`filter`/`sort`/`limit`, JavaScript string behaviour, optional values, statuses |

Two behaviours of the source are modelled as written and stated as contracts:

- Neither state transition checks the current status. A mentor decision or a document review
  can be sent again from a terminal state; it succeeds and notifies the leader again.
  `Projects.MentorDecisionRefired` and `Projects.DocumentDecisionRefired` prove this.
- `updateMentorStatus` calls `toString()` on the project's mentor without a null check, so a
  project with no mentor leaves the request unanswered. `addFinalRemarks` checks for null and
  answers 403.

## Model

| member | source | states |
|---|---|---|
| `Schema.ParseRole` | backend/models/UserModel.js:18-22 | a role is accepted iff it is "student" or "teacher", and it maps back to the same string |
| `Schema.UniqueAppend` | backend/models/UserModel.js:9-13 | adding a user keeps email, rollNumber and employeeId unique iff the user collides with no stored user on any of them; absent fields are never compared |
| `Schema.ParseMentorDecision` | backend/models/ProjectModel.js:44-48 | a mentor decision is exactly "accepted" or "rejected", never pending |
| `Schema.NewProject` | backend/models/ProjectModel.js:15-52 | a created project has a null mentor, `mentorStatus` pending, empty `finalRemarks`, and the schema's default description when none is given |
| `Schema.ParseDocDecision` | backend/models/DocumentModel.js:34-38 | a review decision is exactly "approved" or "rejected", never pending |
| `Schema.NewDocument` | backend/models/DocumentModel.js:7-38 | a created document is pending, its description defaults to the empty string, and it references its one project |
| `Schema.NewNotification` | backend/models/NotificationModel.js:4-34 | a created notification is unread and carries the given recipient, sender, type, optional references and message |
| `Store.UserByEmail` | backend/controllers/userController.js:31 | the lookup finds a user with that email, or reports that none has it |
| `Store.TeacherByName` | backend/controllers/projectController.js:41 | the lookup finds a user with exactly that name and the teacher role, or reports that none exists |
| `Store.ProjectByLeader` | backend/controllers/projectController.js:243 | the first project the user leads, or none when the user leads no project |
| `Store.OwnedProject` | backend/controllers/projectController.js:349 | the project with that id whose leader is the user, or none |
| `Store.DocumentsOf` | backend/controllers/projectController.js:253 | exactly the stored documents that reference the project |
| `Store.Database.InsertUser` | backend/controllers/userController.js:67 | `User.create` of a valid, non-colliding record under the next id appends it, changes no other table, and keeps the database valid |
| `Store.Database.InsertProject` | backend/controllers/projectController.js:62 | `Project.create` of a valid record under the next id appends it, changes no other table, and keeps the database valid |
| `Store.Database.InsertDocument` | backend/controllers/projectController.js:312 | `Document.create` of a valid record under the next id appends it, changes no other table, and keeps the database valid |
| `Store.Database.InsertNotification` | backend/controllers/projectController.js:73 | `Notification.create` of a valid record under the next id appends it, changes no other table, and keeps the database valid |
| `Store.Database.SaveProject` | backend/controllers/projectController.js:178 | `project.save()` of a valid record with the same id replaces exactly that project and keeps the database valid |
| `Store.Database.SaveDocument` | backend/controllers/projectController.js:503 | `document.save()` of a valid record with the same id replaces exactly that document and keeps the database valid |
| `Store.UsersUpdate` | backend/controllers/userController.js:126-131 | saving a user with unchanged id, email, roll number and employee id keeps the user table valid |
| `Store.DocumentsRemove` | backend/controllers/projectController.js:422 | removing a document record keeps document ids distinct |
| `Users.RequestedRole` | backend/controllers/userController.js:49-64 | the request selects the student role iff it says "student" and the teacher role iff it says "teacher" |
| `Users.RegisteredUser` | backend/controllers/userController.js:46-61 | the stored record has the base fields plus only the chosen role's fields; the other role's fields are absent |
| `Users.RegisteredUserValid` | backend/models/UserModel.js:5-50 | once the role checks pass, the record is valid iff name, email and password hash are non-empty |
| `Users.RegisterUser` | backend/controllers/userController.js:17-87 | a taken email gives 400 first, then a missing phone 400, a missing password 500, an unknown role 400, missing role fields 400; the user is created iff every check passes, and nothing else changes |
| `Users.AuthUser` | backend/controllers/userController.js:93-112 | login succeeds only for a stored user with that email whose password check passes; otherwise 401, or no answer when the password is missing |
| `Users.LoginIffCredentials` | backend/controllers/userController.js:97-110 | with unique emails, login for a stored email succeeds iff the password check passes for that user |
| `Users.LoginUnknownEmail` | backend/controllers/userController.js:97-110 | an email no user has is refused with 401 |
| `Users.ApplyProfile` | backend/controllers/userController.js:126-127 | name and phone are replaced only by truthy values; email, password, role and the role fields never change; a valid user stays valid |
| `Users.ApplyProfileIdempotent` | backend/controllers/userController.js:126-127 | repeating an update changes nothing, and an update with no usable field leaves the user as it was |
| `Users.UpdateUserProfile` | backend/controllers/userController.js:117-149 | a missing user gives 404 and changes nothing; otherwise only that user's name and phone change |
| `Auth.BearerToken` | backend/middleware/authMiddleware.js:14 | the token is the second space-separated segment and contains no space |
| `Auth.BearerTokenOf` | backend/middleware/authMiddleware.js:14 | a header "scheme token" yields exactly that token |
| `Auth.LoadUser` | backend/middleware/authMiddleware.js:20 | the loaded user exists iff some stored user has the id, and its password is left out |
| `Auth.Protect` | backend/middleware/authMiddleware.js:4-34 | the request proceeds iff the header exists, starts with "Bearer", has a non-empty token and the token verifies; every refusal is 401; a "Bearer" header without a token is answered 401 and then throws on a second send, exactly when the token is missing or empty |
| `Auth.ProtectAcceptsIssuedToken` | backend/middleware/authMiddleware.js:8-23 | the header `Bearer <token>` with a verifying token proceeds with the user it names |
| `Auth.ProtectIgnoresSchemeSuffix` | backend/middleware/authMiddleware.js:10-14 | the scheme check is a prefix test, so "Bearerxyz t" is treated like "Bearer t" |
| `Auth.ProtectRejectsBareScheme` | backend/middleware/authMiddleware.js:14-33 | the headers "Bearer" and "Bearer " are refused with 401, and the middleware then throws on its second 401 |
| `Auth.Admit` | backend/routes/projectRoutes.js:135-181 | public routes admit anyone; role routes admit only a loaded user of that role; refusals are 401 or 403 |
| `Auth.RoleRouteOutcomes` | backend/middleware/authMiddleware.js:37-45 | on a role route: 401 iff `protect` refuses, 403 iff the user is missing or has the other role, and the handler runs otherwise |
| `Auth.TeacherRoutesAdmitOnlyTeachers` | backend/routes/projectRoutes.js:142-177 | the teacher-projects, mentor-status, remarks and document-status routes run only for teachers |
| `Auth.StudentRoutesAdmitOnlyStudents` | backend/routes/projectRoutes.js:137-181 | the dashboard, upload, download, delete, description and legacy submit routes run only for students |
| `Auth.PublicRoutesAdmitAnyone` | backend/routes/projectRoutes.js:150-151 | submit-registration, like register and login, needs no header |
| `Auth.SignedRoutesAdmitDeletedUsers` | backend/routes/projectRoutes.js:24 | the feed route runs for a verifying token even when its user no longer exists |
| `Projects.RegistrationStudent` | backend/controllers/projectController.js:51-59 | the created user is a student with the request's email, name, roll number and class, and no teacher fields |
| `Projects.RegistrationProject` | backend/controllers/projectController.js:62-70 | the created project is pending, has an empty description and remarks, the resolved teacher as mentor and as requested name, and the given members or none |
| `Projects.RegistrationProjectValid` | backend/models/ProjectModel.js:4-10 | the created project validates iff every member has all five fields |
| `Projects.SubmitRegistrationAndProject` | backend/controllers/projectController.js:20-122 | missing fields, a taken email and an unknown teacher give 400 with nothing written; on success one student, one pending project and one unread PROJECT_REQUEST to the mentor are added |
| `Projects.CreateStudentAndProject` | backend/controllers/projectController.js:51-80 | the student is always stored; the project and the notification are stored iff the members validate, otherwise 400 with the student left behind |
| `Projects.SubmitProject` | backend/controllers/projectController.js:127-129 | the legacy route always answers 400 |
| `Projects.MentorDecision` | backend/controllers/projectController.js:163-165 | a status is accepted iff it is "accepted" or "rejected" |
| `Projects.UpdateMentorStatus` | backend/controllers/projectController.js:160-191 | 400 for a bad status, then 404, then no answer for a null mentor, then 403 for another teacher; on success only `mentorStatus` changes and one MENTOR_REQUEST_RESPONSE goes to the leader under the next id, whatever the current status; every refusal leaves the tables and the id counter unchanged |
| `Projects.MentorDecisionRefired` | backend/controllers/projectController.js:177-188 | after a successful "accepted", a second call with "rejected" also succeeds: the project ends up rejected and the leader has two new notifications |
| `Projects.AddFinalRemarks` | backend/controllers/projectController.js:196-233 | empty text gives 400, a missing project 404, a null or other mentor 403; on success only `finalRemarks` of that project is overwritten |
| `Projects.MentoredBy` | backend/controllers/projectController.js:138 | exactly the projects whose mentor is the teacher |
| `Projects.AttachedDocuments` | backend/controllers/projectController.js:144-150 | filtering the prefetched documents by project gives exactly that project's documents |
| `Projects.AttachDocuments` | backend/controllers/projectController.js:144-150 | the loop attaches to each project exactly its own documents |
| `Projects.GetTeacherProjects` | backend/controllers/projectController.js:134-157 | the response is the teacher's projects, each with its own documents |
| `Projects.TeacherViewsComplete` | backend/controllers/projectController.js:138-150 | every listed project is mentored by the caller, carries exactly its own documents, and no mentored project is missing |
| `Projects.MentorLabel` | backend/controllers/projectController.js:262 | a null or missing mentor shows as "TBD Mentor", otherwise as name and designation |
| `Projects.TeamOf` | backend/controllers/projectController.js:265 | one name-and-roll entry per member, in order |
| `Projects.RemarksList` | backend/controllers/projectController.js:266 | the remarks list is `[finalRemarks]` when that is non-empty and empty otherwise |
| `Projects.StudentDashboard` | backend/controllers/projectController.js:238-276 | 404 iff the caller leads no project; otherwise the first led project, with an empty description shown as "No description added yet." and the project's own documents |
| `Projects.DashboardShowsSavedRemarks` | backend/controllers/projectController.js:266 | after a mentor saves remarks, the leader's dashboard shows exactly that text |
| `Projects.UploadDocument` | backend/controllers/projectController.js:280-331 | no file gives 400, a missing project 404, a caller who is neither leader nor member by roll number 403; for a permitted caller the answer is 201 iff the new pending record passes validation, else 500; a created document is the only change |
| `Projects.DisplayName` | backend/controllers/projectController.js:362-363 | the download name is the document name followed by the stored file's extension: the text from the last dot of the file name's last path part, present iff that dot exists, does not lead the part and the part is not ".." |
| `Projects.DisplayNameWithoutExtension` | backend/controllers/projectController.js:362-363 | a stored file name with no dot is served under the document name alone |
| `Projects.DisplayNameOfUpload` | backend/controllers/projectController.js:362-363 | a stored name "documentFile-stamp.ext" is served as "name.ext" |
| `Projects.DownloadDocument` | backend/controllers/projectController.js:336-384 | a missing record gives 404; a caller who does not lead the document's project gets 403; for the leader the file is served iff the disk send succeeds, a missing file gives 404 and any other send error 500 |
| `Projects.MemberCannotDownload` | backend/controllers/projectController.js:349-354 | a caller who does not lead the document's project is refused with 403, whether a team member or the leader of another project |
| `Projects.DeleteDocument` | backend/controllers/projectController.js:389-430 | a missing document gives 404 and a non-leader 403; otherwise the record is removed whether or not the file could be unlinked |
| `Projects.DeleteRemovesOnlyThat` | backend/controllers/projectController.js:422 | deleting by id removes that document and keeps every other one |
| `Projects.UpdateProjectDescription` | backend/controllers/projectController.js:435-466 | an absent description gives 400, no led project 404; otherwise only the description of the caller's first project changes |
| `Projects.DocDecision` | backend/controllers/projectController.js:476-478 | a status is accepted iff it is "approved" or "rejected" |
| `Projects.UpdateDocumentStatus` | backend/controllers/projectController.js:471-522 | 400 for a bad status, 404 for a missing document, 403 unless the caller is the project's mentor; on success only that document's status changes and one DOCUMENT_STATUS referencing project and document goes to the leader under the next id, whatever the current status; every refusal leaves the tables and the id counter unchanged |
| `Projects.DocumentDecisionRefired` | backend/controllers/projectController.js:502-514 | after a successful approval, a second call with "rejected" also succeeds: the document ends up rejected and the leader has two new notifications |
| `Feeds.PopulatedName` | backend/routes/projectRoutes.js:49-56 | a populated reference has a name iff it is set and names a stored user |
| `Feeds.PendingDocs` | backend/routes/projectRoutes.js:45-56 | a document is selected iff it is pending and its project is mentored by the caller |
| `Feeds.ApproverName` | backend/routes/projectRoutes.js:62 | the populated mentor's name, or the caller's name when that is missing or empty |
| `Feeds.TeacherEntry` | backend/routes/projectRoutes.js:59-73 | an entry carries the document, its project, status "PENDING" and type "DOCUMENT_APPROVAL" |
| `Feeds.TeacherFeed` | backend/routes/projectRoutes.js:35-73 | one "PENDING"/"DOCUMENT_APPROVAL" entry per pending document of a mentored project |
| `Feeds.TeacherFeedExact` | backend/routes/projectRoutes.js:37-73 | a document appears in the teacher's feed iff it is pending and belongs to a project the caller mentors |
| `Feeds.TeacherFeedNamesCaller` | backend/routes/projectRoutes.js:62 | every teacher-feed entry names the caller as the approver |
| `Feeds.StudentProjects` | backend/routes/projectRoutes.js:79-89 | a project is selected iff the caller leads it or the given roll number is a member's roll |
| `Feeds.StudentProjectsAreLed` | backend/routes/projectRoutes.js:82 | with `req.user.rollNo`, which users never have, only led projects are selected |
| `Feeds.StudentProjectsWithRoll` | backend/routes/projectRoutes.js:82 | a roll number that does reach the query selects the projects listing it |
| `Feeds.ReviewedOf` | backend/routes/projectRoutes.js:92-95 | a document is selected iff it is approved or rejected and belongs to a selected project |
| `Feeds.ReviewedDocs` | backend/routes/projectRoutes.js:96 | the selected documents, most recently updated first |
| `Feeds.RecentReviewed` | backend/routes/projectRoutes.js:93-100 | at most five reviewed documents of the caller's projects, newest update first |
| `Feeds.RecentReviewedKeepsNewest` | backend/routes/projectRoutes.js:96 | a reviewed document left out means five are shown, each updated no earlier than it |
| `Feeds.ReviewerName` | backend/routes/projectRoutes.js:105 | the mentor's name, else `requestedMentorName`, else "Mentor"; never empty |
| `Feeds.ReviewedStatusLabel` | backend/routes/projectRoutes.js:107 | an approved document shows "APPROVED" and a rejected one "REJECTED" |
| `Feeds.StudentEntry` | backend/routes/projectRoutes.js:102-116 | an entry carries the uppercased status, type "DOCUMENT_STATUS" and the caller's name |
| `Feeds.StudentFeed` | backend/routes/projectRoutes.js:91-116 | at most five entries, one per recent reviewed document in order; each status is that document's own status uppercased and each teacher name is the reviewer name of its project |
| `Feeds.AllAssignments` | backend/routes/projectRoutes.js:24-133 | a teacher gets their mentored projects and the teacher feed, a student their selected projects and the student feed; a deleted caller gets no answer |
| `Notifications.Inbox` | backend/controllers/notificationController.js:8-9 | exactly the caller's notifications, newest first |
| `Notifications.InboxExcludesOthers` | backend/controllers/notificationController.js:8 | a notification for someone else never appears |
| `Notifications.InboxAfterAppend` | backend/controllers/notificationController.js:8 | a new notification appears in its recipient's inbox only |
| `Notifications.GetNotifications` | backend/controllers/notificationController.js:6-18 | the response is the caller's inbox, or 500 when the caller's record is gone |
| `Notifications.MarkRead` | backend/controllers/notificationController.js:36-37 | only `isRead` of that one notification changes, to true, and the log only grows |
| `Notifications.MarkReadIdempotent` | backend/controllers/notificationController.js:36 | marking read twice is marking read once |
| `Notifications.MarkReadKeepsRead` | backend/controllers/notificationController.js:36 | a read notification stays read |
| `Notifications.MarkNotificationRead` | backend/controllers/notificationController.js:23-44 | 404 for a missing notification and 403 for a non-recipient, both changing nothing; on success only its `isRead` becomes true |
| `Store.LogExtendsTransitive` | backend/controllers/notificationController.js:36 | the notification log is append-only and no read flag goes back to false over any sequence of requests |
| `DataContext.TeacherLabel` | Frontend/src/ProjectDataContext.js:71 | mentor name, else `requestedMentorName`, else "Mentor"; never empty |
| `DataContext.ApprovalRequest` | Frontend/src/ProjectDataContext.js:67-82 | the new request is "PENDING"/"DOCUMENT_APPROVAL" with ids `now` and `now + 1` |
| `DataContext.RequestApproval` | Frontend/src/ProjectDataContext.js:60-86 | false and the list unchanged iff no project matches by `projectId` or `_id`; otherwise exactly one request is appended |
| `DataContext.ApprovalUsesFirstMatch` | Frontend/src/ProjectDataContext.js:63 | the request is built from the first matching project |
| `DataContext.WithoutRequest` | Frontend/src/ProjectDataContext.js:91 | a request is kept iff its id differs from the removed id |
| `DataContext.WithoutRequestKeepsOrder` | Frontend/src/ProjectDataContext.js:91 | removal distributes over concatenation, so the kept requests stay in order; removing twice is removing once |
| `DataContext.WithoutOtherRequest` | Frontend/src/ProjectDataContext.js:91 | requests with other ids are all kept |
| `DataContext.ReviewStatus` | Frontend/src/ProjectDataContext.js:96 | "accept" maps to "approved" and anything else to "rejected" |
| `DataContext.ReviewDocument` | Frontend/src/ProjectDataContext.js:112-114 | only a document whose `_id` or `id` matches gets the new status |
| `DataContext.WithDocumentStatus` | Frontend/src/ProjectDataContext.js:108-118 | non-matching projects are unchanged; a matching one gets its documents re-mapped; the updater fails iff a matching project has no documents |
| `DataContext.ReviewTouchesOnlyThatDocument` | Frontend/src/ProjectDataContext.js:108-118 | after a review only the matching document of a matching project carries the new status; every other document is unchanged |
| `DataContext.ReviewIdempotent` | Frontend/src/ProjectDataContext.js:108-118 | applying the same review twice equals applying it once |
| `DataContext.WithRemark` | Frontend/src/ProjectDataContext.js:140-147 | each matching project gains the remark at the end of its list; other projects are unchanged |
| `DataContext.NewRemark` | Frontend/src/ProjectDataContext.js:132-137 | the remark's text is the trimmed input |
| `DataContext.RemarkAppendsOne` | Frontend/src/ProjectDataContext.js:144 | a matching project's remarks grow by exactly the new remark; earlier remarks are kept in order |
| `DataContext.WithStatus` | Frontend/src/ProjectDataContext.js:155-162 | only matching projects get the new status |
| `DataContext.WithStatusLastWins` | Frontend/src/ProjectDataContext.js:155-162 | of two status updates the later one wins |
| `DataContext.Provider.FetchProjectData` | Frontend/src/ProjectDataContext.js:31-46 | the state takes the response's lists, with missing ones as empty, or two empty lists on failure |
| `DataContext.Provider.RequestDocumentApproval` | Frontend/src/ProjectDataContext.js:60-86 | the result is true iff some project matches; only then is one request appended |
| `DataContext.Provider.HandleDocumentRequest` | Frontend/src/ProjectDataContext.js:89-127 | the request is always removed; the projects change only when the server call succeeds |
| `DataContext.Provider.AddRemark` | Frontend/src/ProjectDataContext.js:130-150 | the result is true iff some project matches; the projects become `WithRemark` of the old ones |
| `DataContext.Provider.UpdateProjectStatus` | Frontend/src/ProjectDataContext.js:153-164 | the result is true iff some project matches; only matching projects get the status |
| `JsStrings.Trim` | Frontend/src/ProjectDataContext.js:135 | the result is the input without its leading and trailing white space, and nothing else |
| `JsStrings.ExtName` | backend/controllers/projectController.js:362 | `path.extname`: non-empty iff the last path part has a dot that does not lead it and the part is not ".."; then exactly the part from its last dot |
| `JsStrings.ExtNameWithoutDot` | backend/controllers/projectController.js:362 | a path without any dot has an empty extension |
| `JsStrings.JoinSplit` | backend/middleware/authMiddleware.js:14 | joining the split segments gives the header back |

## Left out

- The MongoDB and Mongoose calls themselves (`populate`, `lean`, `select`, duplicate-key error
  objects). Tables are sequences and lookups take the first match in insertion order.
  Projections are not modelled: the dashboard returns whole document records.
- A query value that is `undefined` (the student feed's `req.user.rollNo`, or `registerUser`
  with no email) is taken to match no record. An ODM that drops undefined keys from the
  filter would instead match every record; that variant is not modelled.
- Password hashing and comparison (bcrypt) are the function parameters `hash` and `matches`.
  JWT signing is not modelled. JWT verification is the parameter `verify`.
- File I/O. The multer upload configuration (file naming with time and randomness, the
  10 MiB limit) is not part of this model. An upload is given as the file record multer
  produced. `res.download` is the parameter `disk`, and `fs.unlink`'s result is a parameter
  that no outcome depends on.
- Timestamps are natural numbers passed in as `now`. The date formatting of `uploadedOn` and
  the `createdAt`/`updatedAt` stamps of users, projects and notifications are not modelled.
  In particular `markNotificationRead`'s `save()` also moves the notification's `updatedAt`;
  "only `isRead` changes" holds of the modelled fields.
- Response bodies: messages, tokens, the `populate`d sender/project of listed
  notifications. Only the status and the state changes are modelled, plus the feed and
  dashboard views.
- Concurrency between requests. Each request is one sequential method.
- `DataContext.Provider.AddRemark`: React may run a state updater later than the call. The
  model applies it at once, so the returned `success` is the value an eagerly applied
  updater gives. If React defers the updater, the source returns false even when a project
  matches. The loading flag and the mount effect are not modelled.
- `DataContext.Provider.UpdateProjectStatus`: the same assumption as `AddRemark`. Its
  `success` is set inside the `setProjects` updater, and the model applies that updater at
  once. A deferred updater would make the source return false for a matching project.
- `DataContext.Provider.HandleDocumentRequest` and `DataContext.Provider.AddRemark`: a
  matching project without a `documents` (or `remarks`) list makes the updater throw. React
  rethrows that error while rendering, and the app has no error boundary, so the provider's
  tree is unmounted. The model instead keeps `projects` as they were (`WithDocumentStatus`
  and `WithRemark` return none). The projects that `/all-assignments` sends carry neither
  list, so on fetched data every matching review or remark takes this path. The unmounting
  itself is not modelled.
- `Lists.SortDesc`: ties are broken stably, in table order. MongoDB leaves the order of
  equal `updatedAt` or `createdAt` keys unspecified, so which of several equally new
  documents make it into `.limit(5)` is not determined. No contract depends on tie order:
  `Feeds.RecentReviewedKeepsNewest` and `Notifications.Inbox` state only the key order and
  the elements kept.
- `Feeds.AllAssignments`: the 403 branch for a role other than teacher or student cannot be
  reached, because the user schema admits only those two roles.
- Email sending, the server bootstrap, the console script and all presentation components
  are outside this model.
