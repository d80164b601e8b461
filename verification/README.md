# School management back end and admin console, modelled in Dafny

This project models the rule-bearing core of a school-management system. The system has two parts:

- An Express/Mongoose HTTP server. It covers attendance sessions, fees, report cards, assignments, announcements, students, teachers and timetables. Authentication uses Firebase ID tokens and a role gate on each route.
- A React admin console. It has a role-filtered sidebar, a user-role page, a teacher-creation page and summary figures on the attendance and fee pages.

Every handler is a pure function. It takes the collection it reads and returns the reply it sends (status code plus document or error) together with the collection it leaves behind (`Http.Step`). A MongoDB collection is a sequence of `Store.Doc`s in natural order. Unique indexes are `Store.UniqueKey` predicates. The clock (`now`), Firebase token verification (`Auth.Verifier`), the push-notification outcome, fresh document ids and MongoDB text search are parameters.

A few conventions run through the model:

- A missing or empty query string means "no filter".
- Mongoose validation runs before the unique index, so an invalid body is a 500 even when it would also be a duplicate.
- An id from the request path that cannot be cast to an ObjectId makes the query throw, which is a 500 (`Store.Lookup`). A well-formed id that matches nothing is a 404.
- An ObjectId is stored and printed as lower-case hex (`Store.Canon`). An id or reference sent in upper case casts to the same ObjectId, so lookups, filters and stored references use the canonical form.

Layout (`src/`):

- `wrappers.dfy`, `seqs.dfy`, `strings.dfy` and `store.dfy` hold the shared vocabulary:
  - `Option`, HTTP replies and gates;
  - filter, count, subsequence and a stable sort;
  - JavaScript `split`/`join`/`trim`/`substring`/`toLowerCase` and code-point string order;
  - collections and their indexes.
- Server side: `attendance.dfy`, `fees.dfy`, `grades.dfy`, `assignments.dfy`, `announcements.dfy`, `people.dfy` (names and age), `students.dfy`, `teachers.dfy`, `timetables.dfy`, `users.dfy`, `auth.dfy` (token middleware and role gate), `auto_register.dfy`, `auth_controller.dfy`, `routes.dfy` (the per-route permission table).
- Console: `sidebar.dfy`, `users_page.dfy`, `manage_teachers.dfy`, `attendance_page.dfy`, `fees_page.dfy`.

## Model

| member | source | states |
|---|---|---|
| Attendance.TotalStudents | server/src/models/Attendance.js:72-74 | The total is one per record, and for records whose status is in the enum it equals present + absent + late. |
| Attendance.PresentCount | server/src/models/Attendance.js:77-79 | The number of record positions whose status is exactly `present`. |
| Attendance.AbsentCount | server/src/models/Attendance.js:82-84 | The number of record positions whose status is exactly `absent`. |
| Attendance.LateCount | server/src/models/Attendance.js:87-89 | The number of record positions whose status is exactly `late`. |
| Attendance.CountsPartitionTotal | server/src/models/Attendance.js:72-89 | Each of the present, absent and late counts is at most the number of records. For records whose status is in the enum, the three counts add up to the total. |
| Attendance.IndexOfStudent | server/src/controllers/attendanceController.js:59-61 | Returns the first index holding the student, or none exactly when no record holds that student. |
| Attendance.OrNow | server/src/controllers/attendanceController.js:74 | A present, non-zero time is kept; a missing or zero one (falsy) gives `now`. |
| Attendance.Upsert | server/src/controllers/attendanceController.js:58-77 | Corrected loop step. A student who already has a record keeps the position, the length stays the same, and the status/device fields are merged and the record is stamped `now`. A new student is appended with the supplied non-zero timestamp or `now`. Other records are untouched. |
| Attendance.CanonBatch | server/src/models/Attendance.js:38-42 | Each mark's student reference is replaced by its canonical form; nothing else changes. |
| Attendance.UpsertAsWritten | server/src/controllers/attendanceController.js:58-77 | As written: a record is found only when its stored id equals the id as sent. A found record is replaced by the mark's own fields plus the stamp, and a new one is appended under the canonical id. Records of other students are untouched. |
| Attendance.AsWrittenDuplicatesStudent | server/src/controllers/attendanceController.js:59-61 | As written, two marks for one student, sent with any id not in canonical form, leave two records for that student. |
| Attendance.UpperCaseIdNotCanonical | server/src/controllers/attendanceController.js:60 | An upper-case ObjectId is not in canonical form, so the lemma above applies to it. |
| Attendance.MarkAllAsWritten | server/src/controllers/attendanceController.js:58-77 | As written, the loop over the batch never drops a record and adds at most one per mark. A stored record whose student no mark names is untouched. |
| Attendance.MarkAll | server/src/controllers/attendanceController.js:58-77 | The corrected loop over the batch never drops a record and adds at most one per mark. |
| Attendance.AsWrittenForgetsStoredFields | server/src/controllers/attendanceController.js:65-69 | As written, re-marking any stored record without a device clears its device. Re-marking it without a status leaves an empty status, which fails validation. The corrected step keeps both stored values. |
| Attendance.AsWrittenAgreesOnFullMarks | server/src/controllers/attendanceController.js:58-77 | When every mark names its student canonically and states status and device, the loop as written and the corrected loop give the same records. |
| Attendance.UpsertKeepsDistinct | server/src/controllers/attendanceController.js:58-77 | One step keeps one record per student and adds the marked student to the set of students with a record. |
| Attendance.MarkAllDistinct | server/src/controllers/attendanceController.js:58-77 | After the whole batch, students are still distinct. The students with a record are the previous ones plus those in the batch. |
| Attendance.MarkAllKeepsOthers | server/src/controllers/attendanceController.js:58-77 | Every stored record keeps its position and student, and a student absent from the batch keeps the record unchanged. |
| Attendance.MarkAllStamps | server/src/controllers/attendanceController.js:63-69 | A stored record whose student is in the batch carries timestamp `now`. |
| Attendance.MarkAllLastWins | server/src/controllers/attendanceController.js:58-77 | When the stored records hold one per student, each student's record carries the status of that student's last mark in the batch, when that mark states a status. |
| Attendance.MarkAllCount | server/src/controllers/attendanceController.js:58-77 | The record count grows by exactly the number of distinct batch students who had no record. |
| Attendance.CreateSession | server/src/controllers/attendanceController.js:7-37 | Succeeds iff the body is valid, the caller's uid is an ObjectId, and the `sessionId` is free. `takenBy` is an ObjectId reference, so a Firebase uid (28 characters) always gets 500. The new session carries the body's class, section and subject, has no records, is unlocked, has `takenBy` set to the caller's canonical id, date defaulting to `now` when missing or zero, and method to `manual`. A taken id gives 400 "Duplicate"; any failure leaves the store unchanged. |
| Attendance.MarkAttendance | server/src/controllers/attendanceController.js:42-101 | An unknown session gives 404 and a locked one 400. A body without a `records` array gives 500. None of these changes anything. For a found, unlocked session and a batch, the reply is 200 iff the corrected upsert of the canonical batch satisfies the schema. On success the session's records become that upsert. |
| Attendance.GetSession | server/src/controllers/attendanceController.js:106-123 | 200 with the stored session iff it exists, else 404. |
| Attendance.LockSession | server/src/controllers/attendanceController.js:159-182 | An unknown id gives 404. Otherwise it returns the session locked. The only stored change is the addressed session's flag. |
| Attendance.LockIdempotent | server/src/controllers/attendanceController.js:163-167 | Locking twice leaves the same collection as locking once. |
| Attendance.GetReport | server/src/controllers/attendanceController.js:128-154 | Exactly the sessions matching class, section and the inclusive date bounds, as a permutation of the filtered collection, latest date first. |
| Attendance.LockIsOneWay | server/src/controllers/attendanceController.js:53-55 | No request unlocks a locked session or changes its records. |
| Attendance.RequestsKeepIdsUnique | server/src/models/Attendance.js:4-9 | Every request keeps `sessionId` unique. |
| Fees.Balance | server/src/models/Fee.js:67-69 | The fee is settled (balance ≤ 0) iff the payments cover the amount plus the late fee less the discount. |
| Fees.BalanceTracksPayments | server/src/models/Fee.js:67-69 | A payment lowers the balance by exactly its amount, and a late fee raises it by its own. |
| Fees.DerivedStatus | server/src/models/Fee.js:72-86 | The status is `paid` iff balance ≤ 0, `partial` iff balance > 0 and something was paid, `overdue` iff unpaid and past due, and `pending` otherwise. It is always in the enum. |
| Fees.Save | server/src/models/Fee.js:72-86 | Saving changes only the status, which becomes the status derived from the other fields and `now` (always in the enum); the previous status plays no part. |
| Fees.SaveIdempotent | server/src/models/Fee.js:72-86 | Saving again with the same fields and clock changes nothing; the previous status plays no part. |
| Fees.PaidSomethingNeverOverdue | server/src/models/Fee.js:77-80 | A fee with a positive payment is `paid` or `partial`, never `overdue`. |
| Fees.CreateFee | server/src/controllers/feeController.js:22-31 | Succeeds iff the body passes the schema. The student reference is stored canonically. Year, term, fee type, amount, due date, payment date, payment method and transaction are the body's. The paid amount, discount and late fee default to 0. The stored status is the derived one whatever the body said. |
| Fees.RecordPayment | server/src/controllers/feeController.js:33-54 | A malformed id gives 500 and an unknown one 404, both changing nothing. The payment succeeds iff the fee exists and the method, when given, is in the enum; otherwise the reply is 500. The paid amount grows by exactly the amount, with no bound check. The method and transaction are overwritten and `paidAt` is `now`. Every other stored field except the status is unchanged. The balance drops by the amount and the status is re-derived. |
| Fees.PayingBalanceSettles | server/src/controllers/feeController.js:43-49 | Paying at least the balance makes the fee `paid`. An overpayment is accepted and leaves a negative balance. |
| Fees.GetAllFees | server/src/controllers/feeController.js:3-20 | A student filter that is not an ObjectId gives 500. Otherwise exactly the fees matching each given filter (the student in either letter case), as a permutation of the filtered collection, latest due date first. |
| Fees.CreatedFeeListed | server/src/controllers/feeController.js:3-31 | A created fee is listed under its student, whatever letter case the filter uses. |
| Grades.Percentage | server/src/models/Grade.js:51-53 | Exactly 100 · total / maxTotal when maxTotal > 0, otherwise 0. |
| Grades.Band | server/src/models/Grade.js:56-63 | Each of the seven bands holds on exactly its half-open percentage interval. |
| Grades.BandMonotone | server/src/models/Grade.js:57-63 | A higher percentage never earns a lower band. |
| Grades.ThresholdMonotone | server/src/models/Grade.js:57-63 | A percentage that reaches a threshold keeps reaching it when it grows. |
| Grades.PreSave | server/src/models/Grade.js:48-66 | With no subjects the card is unchanged. Otherwise the total is the sum of the marks, the percentage is the exact ratio and the grade is its band. No other field changes. |
| Grades.FullMarksEarnTop | server/src/models/Grade.js:49-63 | Full marks in every subject, with a positive maximum, earn A+. |
| Grades.Cast | server/src/models/Grade.js:4-9 | The stored card differs from the given one only in its student reference, which is canonical. |
| Grades.InsertGrade | server/src/models/Grade.js:3-45 | Saving succeeds iff the validators pass (ObjectId student, class, section and year present, term in the enum, every subject named) and no card exists for the same student, term and year. The (student, term, year) index stays unique. |
| Grades.SecondCardRefused | server/src/models/Grade.js:45 | After a card is saved, a second card for the same term and year is refused, even when it names the student in another letter case. |
| Assignments.CreateAssignment | server/src/controllers/assignmentController.js:23-35 | Succeeds iff the body passes the schema, including any submissions it carries: a carried submission's student reference may be absent, but one that is given must be an ObjectId. Title, description, class, section, subject, due date and submissions are the body's. `teacherId` is the caller whatever the body said. It is an ObjectId reference, so a caller uid that is not an ObjectId (a 28-character Firebase uid) always gets 500. Total marks default to 100, submissions to none and status to `active`. |
| Assignments.CreatedAssignmentFound | server/src/controllers/assignmentController.js:23-35 | A created assignment is what a lookup of its id finds, and its author is the caller. |
| Assignments.SubmitAssignment | server/src/controllers/assignmentController.js:37-59 | A malformed id gives 500 and an unknown one 404, both changing nothing. A caller uid that is not an ObjectId gives 500, so a Firebase uid (28 characters) is always refused. The reply is 200 iff the assignment exists and the uid is an ObjectId. Then exactly one submission is appended after the unchanged existing ones. It carries the caller, the files, `now` and no marks or feedback. It is `late` iff `now` is past the due date, else `submitted`. |
| Assignments.ResubmissionKept | server/src/controllers/assignmentController.js:48-52 | Two submissions by the same student are both kept, in order. |
| Assignments.IndexOfSubmission | server/src/controllers/assignmentController.js:71 | Finds the first submission with that id, or none when no submission has it. |
| Assignments.GradeSubmission | server/src/controllers/assignmentController.js:61-85 | An unknown assignment or submission gives 404 with no change, and so does a submission id that is not an ObjectId. The reply is 200 iff the assignment exists and holds a submission with the canonical submission id. Then that submission gets the marks, the feedback and status `graded`, and every other submission and field is unchanged. |
| Assignments.GetAllAssignments | server/src/controllers/assignmentController.js:3-21 | Exactly the matching assignments, as a permutation of the filtered collection, latest due date first. |
| Announcements.FromInput | server/src/models/Announcement.js:12-53 | `createdBy` is the caller's canonical id. Type, audience and status are in their enums. `sendNotification` defaults to true, `notificationSent` to false and `publishedAt` to `now`. |
| Announcements.CreateAnnouncement | server/src/controllers/announcementController.js:22-57 | An invalid body, or a caller uid that is not an ObjectId (so any 28-character Firebase uid, since `createdBy` is an ObjectId reference), gives 500 with no change. Otherwise the announcement is stored and the reply is 201. Its title, content, type, audience, status, publication time (default `now`) and notification request are the body's, with the schema defaults, and the author is the caller. A push is attempted iff `sendNotification` holds and `notificationSent` does not. The push carries the title, the first min(100, length) characters of the content, and the new id in its lower-case printed form. The flag becomes true only when the push succeeds; the reply is 201 either way. |
| Announcements.NoPushWhenAlreadySent | server/src/controllers/announcementController.js:31 | A body that says the notification was already sent never triggers a push. |
| Announcements.Patch | server/src/controllers/announcementController.js:61-65 | Each of the nine fields (title, content, type, audience, author, publish time, both notification flags, status) is the body's when given and keeps its stored value when absent. An author is stored in canonical form. An empty body changes nothing. |
| Announcements.UpdateAnnouncement | server/src/controllers/announcementController.js:59-75 | Succeeds iff the patch is valid (an author it names must be an ObjectId) and the id exists. A malformed id gives 500 and an unknown one 404. Success replaces only the addressed document. |
| Announcements.DeleteAnnouncement | server/src/controllers/announcementController.js:77-89 | A malformed id gives 500 and an unknown one 404. Otherwise exactly the addressed document is removed. |
| Announcements.GetAllAnnouncements | server/src/controllers/announcementController.js:4-20 | Exactly the matching announcements, as a permutation of the filtered collection, newest `publishedAt` first. |
| People.FirstNameOrderIsTotalOrder | server/src/controllers/studentController.js:20 | Ordering by the code-point order of the first name is total and transitive, for students and teachers alike. |
| People.FullName | server/src/models/Student.js:61-63 | The first name, one space, then the last name. |
| People.FullNameSplits | server/src/models/Student.js:61-63 | When the first name has no space, splitting the full name at spaces gives the first name as the first piece, and the remaining pieces joined with spaces give the last name. |
| People.Age | server/src/models/Student.js:66-75 | The age is the difference of the years when this year's birthday has come, and one less exactly when it is still ahead. |
| People.AgeCountsBirthdays | server/src/models/Student.js:66-75 | The age is the number of birthdays reached by `today`. |
| People.AgeNonNegative | server/src/models/Student.js:66-75 | The age is ≥ 0 iff the date of birth is not after `today`. |
| People.AgeMonotone | server/src/models/Student.js:66-75 | The age never decreases as `today` advances. |
| Students.FromInput | server/src/models/Student.js:3-58 | The stored student takes the body's `studentId`, name, date of birth, gender, class and section, and its guardians (none when omitted). Status defaults to `active`, and gender and status are in their enums. |
| Students.CreateStudent | server/src/controllers/studentController.js:54-71 | An invalid body gives 500. A taken `studentId` gives 400 "Duplicate" with no change. Otherwise the student is appended and the reply is 201. |
| Students.GetStudent | server/src/controllers/studentController.js:36-49 | A malformed id gives 500 and an unknown one 404. The reply is 200 iff the id is an ObjectId whose canonical form is stored, and it carries that student. |
| Students.Patch | server/src/controllers/studentController.js:78-82 | Each of the eight fields (studentId, name, dob, gender, class, section, guardians, status) is the body's when given and keeps its stored value when absent. An empty body changes nothing. |
| Students.UpdateStudent | server/src/controllers/studentController.js:76-97 | Failure changes nothing. A malformed id or invalid patch gives 500, an unknown id 404, and a `studentId` clash 500. Success rewrites only the addressed student. |
| Students.DeleteStudent | server/src/controllers/studentController.js:102-118 | A malformed id gives 500 and an unknown one 404. Otherwise exactly the addressed student is removed. |
| Students.CreateKeepsIndexes | server/src/models/Student.js:4-9 | Creating keeps `_id` and `studentId` unique. |
| Students.UpdateKeepsIndexes | server/src/models/Student.js:4-9 | Updating keeps `_id` and `studentId` unique. |
| Students.DeleteKeepsIndexes | server/src/models/Student.js:4-9 | Deleting keeps `_id` and `studentId` unique. |
| Students.GetAllStudents | server/src/controllers/studentController.js:6-31 | Exactly the students matching class, section, status and the text search, as a permutation of the filtered collection, ascending by first name. |
| Teachers.FromInput | server/src/models/Teacher.js:3-49 | teacherId, name, phone and firebaseUid are the body's. Subjects and assigned classes are the body's or empty. The e-mail is the lower-cased input, and `active` defaults to true. |
| Teachers.CreateTeacher | server/src/controllers/teacherController.js:49-66 | An invalid body gives 500. A clash on `teacherId`, e-mail or Firebase uid gives 400 "Duplicate" with no change. Otherwise the teacher is appended and the reply is 201. |
| Teachers.EmailCaseInsensitive | server/src/models/Teacher.js:14-19 | Two e-mails equal up to ASCII case cannot both be created. |
| Teachers.GetTeacher | server/src/controllers/teacherController.js:31-44 | A malformed id gives 500 and an unknown one 404. The reply is 200 iff the id is an ObjectId whose canonical form is stored, and it carries that teacher. |
| Teachers.Patch | server/src/controllers/teacherController.js:73-77 | Each of the eight fields is the body's when given and keeps its stored value when absent. A new e-mail is lower-cased. An empty body changes nothing. |
| Teachers.UpdateTeacher | server/src/controllers/teacherController.js:71-92 | Failure changes nothing. A malformed id or invalid patch gives 500, an unknown id 404, and a unique clash 500. Success rewrites only the addressed teacher. |
| Teachers.DeleteTeacher | server/src/controllers/teacherController.js:97-113 | A malformed id gives 500 and an unknown one 404. Otherwise exactly the addressed teacher is removed. |
| Teachers.CreateKeepsIndexes | server/src/models/Teacher.js:4-38 | Creating keeps `_id`, `teacherId`, e-mail and Firebase uid unique. |
| Teachers.UpdateKeepsIndexes | server/src/models/Teacher.js:4-38 | Updating keeps all four indexes unique. |
| Teachers.DeleteKeepsIndexes | server/src/models/Teacher.js:4-38 | Deleting keeps all four indexes unique. |
| Teachers.GetAllTeachers | server/src/controllers/teacherController.js:6-26 | Exactly the teachers matching subject, the `active` filter and the text search, ascending by first name. |
| Teachers.ActiveFilterStrict | server/src/controllers/teacherController.js:12 | Any present `active` value other than `true` keeps only inactive teachers. |
| Timetables.FromInput | server/src/models/Timetable.js:3-40 | Class, section, year, day and slots are the body's, with slots defaulting to none and `active` to true. The day is in the enum, the required strings are present and every slot is valid. |
| Timetables.CreateTimetable | server/src/controllers/timetableController.js:22-34 | An invalid body gives 500. A taken (class, section, day, year) gives 400 "Duplicate" with no change. Otherwise the timetable is appended and the reply is 201. |
| Timetables.Patch | server/src/controllers/timetableController.js:38-42 | Given fields replace stored ones, including the key fields. |
| Timetables.UpdateTimetable | server/src/controllers/timetableController.js:36-52 | Failure changes nothing. A malformed id or invalid patch gives 500, an unknown id 404, and a key clash 500. Success rewrites only the addressed timetable. |
| Timetables.HandlersKeepIndex | server/src/models/Timetable.js:42-43 | Create and update keep `_id` and the compound key unique. |
| Timetables.GetTimetable | server/src/controllers/timetableController.js:3-20 | Exactly the matching timetables, in natural order. |
| Timetables.FullQueryAtMostOne | server/src/models/Timetable.js:43 | A query naming all four key fields returns at most one timetable. |
| Users.NormalEmail | server/src/models/User.js:4-10 | The stored address is the trimmed input up to letter case, with no capital letter. So it has no whitespace at either end, is empty iff the input is all whitespace, and is never longer than the input. |
| Users.SameAddressCollides | server/src/models/User.js:4-10 | Two addresses that differ only in letter case or surrounding whitespace are stored as the same address, so they collide on the unique index. |
| Users.NormalEmailIdempotent | server/src/models/User.js:4-10 | An address already normalised is stored unchanged when it is saved again. |
| Users.FindByUid | server/src/middleware/autoRegister.js:24 | Finds a user with that uid iff one exists. |
| Store.Canon | server/src/models/Attendance.js:38-42 | The canonical text has the same length, and is an ObjectId iff the original is. Each character is the original one or the same letter in the other case, and no capital remains. |
| Store.CanonCaseBlind | server/src/models/Attendance.js:38-42 | Two texts have the same canonical form iff they differ at most in the case of ASCII letters. Ids sent in different cases therefore reach the same document. |
| Store.CanonIdempotent | server/src/models/Attendance.js:38-42 | Canonical text is its own canonical form. |
| Store.Lookup | server/src/controllers/studentController.js:36-42 | A malformed id gives 500, an id whose canonical form is unknown 404, and otherwise the document stored under the canonical id. |
| Store.LookupIgnoresCase | server/src/controllers/studentController.js:38 | A path id finds exactly what its canonical form finds. |
| Store.UpperCaseIdFound | server/src/controllers/studentController.js:38 | An upper-case path id reaches the document stored under the lower-case one. |
| Auth.BearerToken | server/src/middlewares/auth.js:19 | The token is the text after the leading `Bearer `, up to the next occurrence of `Bearer ` or the end of the header. |
| Auth.BearerTokenRoundTrip | server/src/middlewares/auth.js:12-19 | For a token not containing `Bearer `, the header `Bearer ` + t passes the prefix check and yields exactly t. |
| Auth.Authenticate | server/src/middlewares/auth.js:7-41 | A missing header or one without the exact prefix gives 401 "No token provided", and a rejected token 401. Otherwise the caller's identity, with the role claim if truthy and else none. |
| Auth.RequireRole | server/src/middlewares/auth.js:47-67 | No identity gives 401. With an identity it passes iff the role is present and in the list, otherwise 403. |
| Auth.RequireRoleWidening | server/src/middlewares/auth.js:58 | Widening the allowed list never turns a pass into a refusal. |
| Auth.RequireRoleEmpty | server/src/middlewares/auth.js:58-63 | An empty list refuses everyone with 403. |
| AutoRegister.Superadmin | server/src/middleware/autoRegister.js:29-38 | The auto-created user is a valid active superadmin bound to the uid. |
| AutoRegister.Resolve | server/src/middleware/autoRegister.js:11-47 | No token gives 400. An expired token gives 401 "Token expired" and any other rejection 401 "Authentication failed". A known uid creates nothing. An unknown uid with the configured e-mail creates exactly the superadmin, or gives 401 when that e-mail is already taken. Any other unknown uid gives 404 with no change. |
| AutoRegister.AutoRegisterAsWritten | server/src/middleware/autoRegister.js:48-51 | As written, the active check reads an absent field, so every identity that resolves is refused with 403. |
| AutoRegister.AsWrittenAdmitsNobody | server/src/middleware/autoRegister.js:36-51 | As written no request is admitted. The superadmin's first login stores the new account and is still refused with 403. |
| AutoRegister.AutoRegister | server/src/middleware/autoRegister.js:48-56 | Corrected: it admits iff the stored user resolves and is active, passing on the user and the token, and refuses with 403 otherwise. |
| AutoRegister.SuperadminFirstLogin | server/src/middleware/autoRegister.js:26-40 | The superadmin's first login creates the account once, and a second login creates nothing more. |
| AuthController.FirstName | server/src/controllers/authController.js:26 | The first name is never empty and contains no space. |
| AuthController.LastName | server/src/controllers/authController.js:27 | The last name is everything after the first space of the token name, spaces included. It is `''` when the name is missing or has no space. |
| AuthController.NameSplitMeaning | server/src/controllers/authController.js:26-27 | The first name is the text before the first space, or `User`. The last name is everything after that space, or empty when there is none. |
| AuthController.FullNameRoundTrip | server/src/controllers/authController.js:26-27 | A full name whose first part has no space splits back into its parts. |
| AuthController.NewUser | server/src/controllers/authController.js:23-31 | The created user carries the role claim, the uid and the split name, and is active. |
| AuthController.VerifyFirebaseTokenWith | server/src/controllers/authController.js:7-50 | No token gives 400 and a rejected token 401. A user is created iff the uid is unknown and the token has a role claim, and a failed save gives 401. Existing users are never changed. The reply's role is the claim or else the stored role. |
| AuthController.VerifyFirebaseTokenAsWritten | server/src/controllers/authController.js:22-33 | As written, the store is unchanged or gains one account after the existing ones, and that account meets the full User schema, empty last name excluded. |
| AuthController.VerifyFirebaseToken | server/src/controllers/authController.js:22-33 | Corrected: the store is unchanged or gains one account after the existing ones. That account has an e-mail, a first name and an enum role, and may have an empty last name. |
| AuthController.OneWordUser | server/src/controllers/authController.js:26-27 | The one-word name `Ann` yields an empty last name, which the schema rejects and the corrected check accepts. |
| AuthController.OneWordNameRejected | server/src/controllers/authController.js:22-33 | As written, every first sign-in with a one-word name gets 401 and no account. |
| AuthController.SingleWordNameRejected | server/src/controllers/authController.js:22-49 | A concrete case: token name `Ann` gets 401 as written, and the corrected handler creates the account. |
| AuthController.CorrectedRegistersEveryName | server/src/controllers/authController.js:22-33 | With the correction, any new uid with an enum role claim and a non-blank e-mail is registered, whatever the name. |
| AuthController.AdminLogin | server/src/controllers/authController.js:55-70 | Always 501. |
| Routes.Admit | server/src/routes/attendance.routes.js:11-59 | The token check runs before the role check. Failed authentication is a 401; a role outside the route's list is a 403. |
| Routes.UnauthenticatedIs401 | server/src/__tests__/api.test.js:17-21 | A request with no header gets 401 on every route. |
| Routes.AttendanceAccess | server/src/routes/attendance.routes.js:11-59 | Create, mark and view are open to teacher, admin and superadmin. The report also admits accountant. Locking is for admin and superadmin only. |
| Routes.PeopleAccess | server/src/routes/student.routes.js:11-59 | Students: list and get for teacher and above, create and update for the admins, delete for the superadmin only. Teacher routes have the same guards, and an accountant is refused on all of them. |
| Routes.FeeAccess | server/src/routes/fee.routes.js:6-21 | Listing needs only a token. Create and payment are exactly for admin and accountant. |
| Routes.AnnouncementAccess | server/src/routes/announcement.routes.js:6-27 | Listing needs only a token. Create and update are for teacher, admin and superadmin; delete is for the admins only. |
| Routes.AssignmentAccess | server/src/routes/assignment.routes.js:6-27 | Listing needs only a token. Create and grade are exactly for teacher and admin, and submit only for `student`. No role can both submit and grade. |
| Routes.TimetableAccess | server/src/routes/timetable.routes.js:6-21 | Listing needs only a token. Create and update are for the admins only. |
| Routes.NoRoleOnlyOpenRoutes | server/src/routes/fee.routes.js:6-9 | A caller without a role passes exactly the token-only routes. |
| Sidebar.Visible | admin/src/components/Layout/Sidebar.jsx:26-28 | An entry is shown iff the role is in its list, and the shown entries keep menu order. |
| Sidebar.AdminsSeeAll | admin/src/components/Layout/Sidebar.jsx:15-23 | Admin and superadmin see the whole menu. |
| Sidebar.AdminsListed | admin/src/components/Layout/Sidebar.jsx:15-23 | Both admin roles appear in every entry's list. |
| Sidebar.TeacherMenu | admin/src/components/Layout/Sidebar.jsx:15-21 | A teacher sees exactly Dashboard, Students, Attendance, Assignments and Announcements. |
| Sidebar.AccountantMenu | admin/src/components/Layout/Sidebar.jsx:15-23 | An accountant sees exactly Dashboard, Fees and Reports. |
| Sidebar.UnknownRoleSeesNothing | admin/src/components/Layout/Sidebar.jsx:14-28 | No role, or a role no entry lists, sees nothing. |
| UsersPage.DisplayRole | admin/src/pages/Users.jsx:118 | The role if present and non-empty, else `user`. |
| UsersPage.UpdateUserRole | admin/src/pages/Users.jsx:45-76 | A non-superadmin gets an error and no change. A failed request keeps the list and sets an error. Success changes exactly the role of the matching rows and clears the error. |
| UsersPage.UpdateOnlyTarget | admin/src/pages/Users.jsx:68-70 | After success the target row has the new role and its other fields, and every other row is unchanged. |
| UsersPage.Offered | admin/src/pages/Users.jsx:122-138 | No buttons unless the viewer is superadmin and the row is not. Then Make Admin iff the row is not admin, Make Teacher iff not teacher, and Demote iff admin or teacher. |
| UsersPage.OfferedChangesRole | admin/src/pages/Users.jsx:122-138 | No offered button re-assigns the current role, and every non-superadmin row has at least one button. |
| Strings.Trim | admin/src/pages/ManageTeachers.jsx:91-92 | The result is a contiguous piece of the input with only whitespace before and after it. It is empty iff the input is all whitespace, and otherwise starts and ends with a non-space. |
| ManageTeachers.TrimAll | admin/src/pages/ManageTeachers.jsx:91-92 | Each piece is trimmed: it is the original piece with only surrounding whitespace removed, so it is empty or starts and ends with a non-space. |
| ManageTeachers.ParseList | admin/src/pages/ManageTeachers.jsx:91-92 | Every item is non-empty and trimmed. The items are exactly the non-empty trimmed pieces, as many as there are such pieces, in their order. There are at most one more than the number of commas. |
| ManageTeachers.ParseListNoComma | admin/src/pages/ManageTeachers.jsx:91-92 | No parsed item contains a comma. |
| ManageTeachers.BlankParsesEmpty | admin/src/pages/ManageTeachers.jsx:91-92 | Input of only whitespace and commas, the empty string included, parses to the empty list. |
| ManageTeachers.ParseJoin | admin/src/pages/ManageTeachers.jsx:91-92 | Comma-joining a list of non-empty, trimmed, comma-free items and parsing it gives the list back. |
| ManageTeachers.GateAsWritten | admin/src/pages/ManageTeachers.jsx:49-62 | As written: signed-out users go to login, and teachers are fetched iff the profile's role is `super-admin`. |
| ManageTeachers.AsWrittenLocksOutSuperadmin | admin/src/pages/ManageTeachers.jsx:57 | Every role the system assigns, `superadmin` included, is sent to the dashboard. |
| ManageTeachers.Gate | admin/src/pages/ManageTeachers.jsx:49-62 | Corrected: teachers are fetched iff the signed-in user's profile role is `superadmin`. |
| ManageTeachers.GateAdmitsSuperadminOnly | admin/src/pages/ManageTeachers.jsx:56-60 | Among the assigned roles only the superadmin passes the corrected gate, and a missing profile never does. |
| ManageTeachers.AfterCreate | admin/src/pages/ManageTeachers.jsx:101-107 | Success empties every field, closes the dialog and shows the notice. Failure keeps the form and the dialog and shows a non-empty error: the server's message when it sends one. |
| ManageTeachers.ToPayload | admin/src/pages/ManageTeachers.jsx:89-93 | The request body carries the form's e-mail, password and display name unchanged, and the subjects and classes as their parsed comma lists. |
| ManageTeachers.ResetFormSendsNothing | admin/src/pages/ManageTeachers.jsx:102 | After a success the reset form sends empty strings and empty lists. |
| AttendancePage.SessionStats | admin/src/pages/Attendance.jsx:30-37 | Missing records give all zeros. Otherwise the counts are the exact status matches and their sum is at most the total. |
| AttendancePage.StatsMatchServer | admin/src/pages/Attendance.jsx:30-37 | The page's figures equal the server's virtual counts for the same session. |
| AttendancePage.Rate | admin/src/pages/Attendance.jsx:85 | 0 when there are no records, otherwise exactly 100 · present / total, between 0 and 100. |
| FeesPage.RowBalance | admin/src/pages/Fees.jsx:104 | The row balance is the server balance with the late fee and discount taken back out. |
| FeesPage.TotalStats | admin/src/pages/Fees.jsx:28-34 | Pending is total minus paid and equals the sum of the row balances; an empty list gives zeros. |
| FeesPage.SumRowBalances | admin/src/pages/Fees.jsx:29-31 | The sum of row balances is the sum of amounts minus the sum of payments. |
| FeesPage.StatsAppend | admin/src/pages/Fees.jsx:29-31 | Adding a fee adds its amount, payment and row balance to the three figures. |

## Left out

- Database, Firebase and push I/O are parameters or oracles rather than calls:
  - collections are values;
  - token verification is `Auth.Verifier`;
  - the push outcome is a boolean;
  - fresh `_id`s are arguments;
  - MongoDB `$text` search is a `textMatch` predicate, since its index semantics are not visible here.
- `populate` joins are left out: they change what a reply shows, not what is stored.
- The socket.io emit after marking attendance is left out; it has no effect on state.
- The clock is the `now` argument. The receipt number built from the current time in `recordPayment` is not modelled.
- Floating-point formatting is left out: `toFixed(2)` on the grade percentage, `toFixed(1)` on the attendance rate, and `toLocaleString`. Percentages are exact ratios.
- Grades.Band: the band is taken from the exact ratio. The source takes it from the value rounded to two decimals, which can differ just below a boundary.
- Fees.RecordPayment: the amount is an integer. A missing amount (NaN) or a string amount (concatenation) is not modelled.
- Money, marks and dates are integers (minor units; day or instant numbers). Calendar conversion of `Date` values is not modelled.
- `Strings.ToLower` lower-cases ASCII letters only; full Unicode case mapping is not modelled.
- Store.IsObjectId accepts only the 24-hex-digit form. Whether a 12-character string also casts depends on the bson version, so that form is not modelled.
- Announcements.CreateAnnouncement: the push body is the first 100 characters counted as code points. JavaScript's `substring` counts UTF-16 units, so content with characters outside the Basic Multilingual Plane can give a different (possibly split) preview.
- Timetables.CreateTimetable: a period's teacher reference is kept in the letter case sent. Mongoose would store it in lower case, but nothing in the model compares these references.
- Assignments.CreateAssignment: submissions carried in the body are stored as sent. A carried submission must state its status; the sub-schema's `submitted` default for a missing one is not modelled. The fresh sub-document ids Mongoose gives those without one, and the lower-case form of their references, are not modelled.
- Grades.InsertGrade: a subject's marks are integers, so the `required` check on them cannot fail in the model.
- `Students.Patch`, `Teachers.Patch` and `Timetables.Patch` replace whole sub-documents: a nested `name` in an update body replaces the stored name object, as `findByIdAndUpdate` does.
- Schema fields no handler here reads or derives are dropped: the `geo` position of an attendance record, an announcement's `targetClasses`, `attachments` and `expiresAt`, an assignment's `attachments`, a fee's `remarks` and `receiptNumber`, a student's `medical`, `photoUrl`, `firebaseUid` (indexed but not unique) and `admissionDate`, a teacher's `photoUrl` and `joinDate`, and the `createdAt`/`updatedAt` pair that `timestamps: true` adds to every schema. No handler modelled sorts or filters on them. They are stored as sent and play no part in any rule modelled.
- Concurrency between requests is left out; requests apply one at a time.
- The wiring that keeps parts of the server from starting is not modelled:
  - `user.routes.js` imports a middleware `auth.js` does not export, and passes arrays to `requireRole`;
  - `server.js` imports a function that is not exported;
  - `app.js` mounts only the auth and user routers and has no `/health`.
  - `Routes` therefore models the permission table as declared in each route file. `Routes.UnauthenticatedIs401` states what the test expects of a mounted student router.
- autoRegister.js binds the whole config module where the Firebase handle is expected, so verification would throw on every request. The model treats the verifier as working.
- userController.js (Firebase account creation plus a document write) and the `/users` routes are not part of this model.
- The console's Firestore reads are inputs:
  - the role and profile in Users.jsx and ManageTeachers.jsx;
  - the teacher list fetch;
  - the list of users.
- The token a role claim carries may be any string. A claim outside the User enum (such as `student`) fails validation in both handlers, which the model reflects through `Users.ValidUser`.
- Pure UI and stub pages are not modelled: App.jsx, Login.jsx, AuthContext.jsx, Dashboard.jsx, Reports.jsx, Timetable.jsx, Assignments.jsx, Settings.jsx, Students.jsx, Teachers.jsx, Announcements.jsx, ManageAdmins.jsx, Grades.jsx, api.js.
- Schema-only models with no handler here are not modelled: Event, LeaveRequest, Message.

## Findings

| source | as written | input that shows it | evidently intended | confidence | as-written member | corrected member |
|---|---|---|---|---|---|---|
| server/src/middleware/autoRegister.js:49 | The middleware refuses any user whose `isActive` is falsy, but the User schema's field is `active`, so `isActive` is never stored. | Any verified token whose uid is known, or the superadmin's first login: the reply is 403 "Account is deactivated". This is reachable only once the config binding at autoRegister.js:1 is fixed. As the file stands, verification throws and every request gets 401 (the failed-verifier branch of `AutoRegister.Resolve`). | Check `active`, so that active users are admitted. | high (not executed) | AutoRegister.AutoRegisterAsWritten, AutoRegister.AsWrittenAdmitsNobody | AutoRegister.AutoRegister |
| server/src/controllers/authController.js:27 | A one-word token name gives the last name `''`, which the schema's required `name.last` rejects on save, so the handler answers 401. | A verified token with role `teacher`, name `Ann` and a new uid: 401, and no account is created. | Accept the empty last name that the `\|\| ''` fallback produces, so the account is created. | medium (not executed) | AuthController.SingleWordNameRejected, AuthController.OneWordNameRejected | AuthController.VerifyFirebaseToken, AuthController.CorrectedRegistersEveryName |
| admin/src/pages/ManageTeachers.jsx:57 | The page admits only the role `super-admin`, while the User schema, the sidebar and the users page all spell it `superadmin`. Other code uses the hyphenated spelling too: ManageAdmins.jsx:51, and the guards at user.routes.js:7, 10 and 13. Yet user.routes.js:16 spells it `superadmin`. The Firestore profiles written at userController.js:19-25, 48-56 and 79-87 carry only `admin`, `teacher` or `student`. So which spelling the profile of a super administrator is meant to carry is undecided. | A signed-in user whose profile role is `superadmin` is redirected to the dashboard, and teachers are never fetched. | Compare with `superadmin`. | low (not executed) | ManageTeachers.GateAsWritten, ManageTeachers.AsWrittenLocksOutSuperadmin | ManageTeachers.Gate, ManageTeachers.GateAdmitsSuperadminOnly |
| server/src/controllers/attendanceController.js:60 | The loop compares the stored reference, printed in lower-case hex, with the id exactly as sent. | Two marks in one request for `507F1F77BCF86CD799439011`: the second misses the first's record, and the session holds two records for one student. | Compare canonical forms, so that each student holds one record. | medium (not executed) | Attendance.UpsertAsWritten, Attendance.AsWrittenDuplicatesStudent, Attendance.UpperCaseIdNotCanonical | Attendance.MarkAttendance, Attendance.MarkAllDistinct |
| server/src/controllers/attendanceController.js:65-69 | The merge spreads a Mongoose subdocument, whose fields are not its own enumerable properties, so the replacement holds only the request's fields and the stamp. | Re-marking a stored record with status `late` and no device clears its device; re-marking with a device and no status leaves no status, and the save fails validation (500). | Merge the request's fields into the stored record, as the comment and the spread suggest. | medium (not executed) | Attendance.UpsertAsWritten, Attendance.AsWrittenForgetsStoredFields | Attendance.Upsert, Attendance.MarkAllLastWins |
