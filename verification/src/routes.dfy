/** The route tables: which middleware chain guards each endpoint. Every chain runs the token
    middleware first and then, where present, the role gate. */
module Routes {

  import opened Wrappers
  import opened Http
  import opened Auth

  /** What guards a route after the token check: nothing more, or a role list. */
  datatype Guard = TokenOnly | RoleIn(allowed: seq<string>)

  /** An endpoint: its router file, method, router-relative path and guard. */
  datatype Route = Route(router: string, verb: string, path: string, guard: Guard)

  const Staff: seq<string> := ["teacher", "admin", "superadmin"]
  const Admins: seq<string> := ["admin", "superadmin"]
  const Finance: seq<string> := ["admin", "accountant"]
  const Authors: seq<string> := ["teacher", "admin"]

  const CreateSession := Route("attendance", "POST", "/session", RoleIn(Staff))
  const MarkAttendance := Route("attendance", "POST", "/session/:sessionId/mark", RoleIn(Staff))
  const GetSession := Route("attendance", "GET", "/session/:sessionId", RoleIn(Staff))
  const GetReport := Route("attendance", "GET", "/report", RoleIn(Staff + ["accountant"]))
  const LockSession := Route("attendance", "PUT", "/session/:sessionId/lock", RoleIn(Admins))

  const ListStudents := Route("student", "GET", "/", RoleIn(Staff))
  const GetStudent := Route("student", "GET", "/:id", RoleIn(Staff))
  const CreateStudent := Route("student", "POST", "/", RoleIn(Admins))
  const UpdateStudent := Route("student", "PUT", "/:id", RoleIn(Admins))
  const DeleteStudent := Route("student", "DELETE", "/:id", RoleIn(["superadmin"]))

  const ListTeachers := Route("teacher", "GET", "/", RoleIn(Staff))
  const GetTeacher := Route("teacher", "GET", "/:id", RoleIn(Staff))
  const CreateTeacher := Route("teacher", "POST", "/", RoleIn(Admins))
  const UpdateTeacher := Route("teacher", "PUT", "/:id", RoleIn(Admins))
  const DeleteTeacher := Route("teacher", "DELETE", "/:id", RoleIn(["superadmin"]))

  const ListFees := Route("fee", "GET", "/", TokenOnly)
  const CreateFee := Route("fee", "POST", "/", RoleIn(Finance))
  const RecordPayment := Route("fee", "POST", "/:id/payment", RoleIn(Finance))

  const ListAnnouncements := Route("announcement", "GET", "/", TokenOnly)
  const CreateAnnouncement := Route("announcement", "POST", "/", RoleIn(Staff))
  const UpdateAnnouncement := Route("announcement", "PUT", "/:id", RoleIn(Staff))
  const DeleteAnnouncement := Route("announcement", "DELETE", "/:id", RoleIn(Admins))

  const ListAssignments := Route("assignment", "GET", "/", TokenOnly)
  const CreateAssignment := Route("assignment", "POST", "/", RoleIn(Authors))
  const SubmitAssignment := Route("assignment", "POST", "/:id/submit", RoleIn(["student"]))
  const GradeSubmission := Route("assignment", "PUT", "/:id/submissions/:submissionId/grade", RoleIn(Authors))

  const ListTimetables := Route("timetable", "GET", "/", TokenOnly)
  const CreateTimetable := Route("timetable", "POST", "/", RoleIn(Admins))
  const UpdateTimetable := Route("timetable", "PUT", "/:id", RoleIn(Admins))

  const AttendanceRoutes: seq<Route> := [CreateSession, MarkAttendance, GetSession, GetReport, LockSession]
  const StudentRoutes: seq<Route> := [ListStudents, GetStudent, CreateStudent, UpdateStudent, DeleteStudent]
  const TeacherRoutes: seq<Route> := [ListTeachers, GetTeacher, CreateTeacher, UpdateTeacher, DeleteTeacher]
  const FeeRoutes: seq<Route> := [ListFees, CreateFee, RecordPayment]
  const AnnouncementRoutes: seq<Route> := [ListAnnouncements, CreateAnnouncement, UpdateAnnouncement, DeleteAnnouncement]
  const AssignmentRoutes: seq<Route> := [ListAssignments, CreateAssignment, SubmitAssignment, GradeSubmission]
  const TimetableRoutes: seq<Route> := [ListTimetables, CreateTimetable, UpdateTimetable]

  const AllRoutes: seq<Route> := AttendanceRoutes + StudentRoutes + TeacherRoutes + FeeRoutes
                                 + AnnouncementRoutes + AssignmentRoutes + TimetableRoutes

  /** A caller with this role (as the token middleware attached it) passes the guard. */
  predicate Allows(g: Guard, role: Option<string>) {
    g.TokenOnly? || (role.Some? && role.value in g.allowed)
  }

  /** The middleware chain of a route: the token check, then the role gate if any. */
  function Admit(route: Route, header: Option<string>, verify: Verifier): (r: Gate<FirebaseUser>)
    ensures Authenticate(header, verify).Halt? ==> r == Authenticate(header, verify)
    ensures r.Next? <==> Authenticate(header, verify).Next? && Allows(route.guard, Authenticate(header, verify).value.role)
    ensures r.Next? ==> r == Authenticate(header, verify)
    ensures r.Halt? ==> (r.code == UNAUTHORIZED <==> Authenticate(header, verify).Halt?)
    ensures r.Halt? && Authenticate(header, verify).Next? ==> r == Halt(FORBIDDEN, "Insufficient permissions")
  {
    match Authenticate(header, verify)
    case Halt(code, e) => Halt(code, e)
    case Next(user) =>
      match route.guard
      case TokenOnly => Next(user)
      case RoleIn(allowed) => RequireRole(allowed, Some(user))
  }

  /** A request without a usable token is refused with 401 on every route, never 403. */
  lemma UnauthenticatedIs401(route: Route, verify: Verifier)
    ensures Admit(route, None, verify) == Halt(UNAUTHORIZED, "No token provided")
  {
  }

  /** Attendance: staff create, mark and view sessions; the report also admits accountants;
      only admins lock. */
  lemma AttendanceAccess(role: Option<string>)
    ensures Allows(CreateSession.guard, role) <==> role in {Some("teacher"), Some("admin"), Some("superadmin")}
    ensures Allows(MarkAttendance.guard, role) <==> Allows(CreateSession.guard, role)
    ensures Allows(GetSession.guard, role) <==> Allows(CreateSession.guard, role)
    ensures Allows(GetReport.guard, role) <==> Allows(CreateSession.guard, role) || role == Some("accountant")
    ensures Allows(LockSession.guard, role) <==> role in {Some("admin"), Some("superadmin")}
  {
  }

  /** Students and teachers: staff read, admins write, only the superadmin deletes; the
      accountant is refused on every teacher route. */
  lemma PeopleAccess(role: Option<string>)
    ensures Allows(ListStudents.guard, role) <==> role in {Some("teacher"), Some("admin"), Some("superadmin")}
    ensures Allows(CreateStudent.guard, role) <==> role in {Some("admin"), Some("superadmin")}
    ensures Allows(UpdateStudent.guard, role) <==> Allows(CreateStudent.guard, role)
    ensures Allows(DeleteStudent.guard, role) <==> role == Some("superadmin")
    ensures forall i :: 0 <= i < |TeacherRoutes| ==>
      (Allows(TeacherRoutes[i].guard, role) <==> Allows(StudentRoutes[i].guard, role))
    ensures forall r :: r in TeacherRoutes ==> !Allows(r.guard, Some("accountant"))
  {
  }

  /** Fees: any authenticated caller lists; only admin and accountant create or record
      payments, so the superadmin and teachers are refused. */
  lemma FeeAccess(role: Option<string>)
    ensures Allows(ListFees.guard, role)
    ensures Allows(CreateFee.guard, role) <==> role in {Some("admin"), Some("accountant")}
    ensures Allows(RecordPayment.guard, role) <==> Allows(CreateFee.guard, role)
  {
  }

  /** Announcements: any caller lists; staff create and update; admins delete. */
  lemma AnnouncementAccess(role: Option<string>)
    ensures Allows(ListAnnouncements.guard, role)
    ensures Allows(CreateAnnouncement.guard, role) <==> role in {Some("teacher"), Some("admin"), Some("superadmin")}
    ensures Allows(UpdateAnnouncement.guard, role) <==> Allows(CreateAnnouncement.guard, role)
    ensures Allows(DeleteAnnouncement.guard, role) <==> role in {Some("admin"), Some("superadmin")}
  {
  }

  /** Assignments: any caller lists; teacher and admin create and grade (not the superadmin);
      only `student` submits, so no role can both submit and grade. */
  lemma AssignmentAccess(role: Option<string>)
    ensures Allows(ListAssignments.guard, role)
    ensures Allows(CreateAssignment.guard, role) <==> role in {Some("teacher"), Some("admin")}
    ensures Allows(GradeSubmission.guard, role) <==> Allows(CreateAssignment.guard, role)
    ensures Allows(SubmitAssignment.guard, role) <==> role == Some("student")
    ensures !(Allows(SubmitAssignment.guard, role) && Allows(GradeSubmission.guard, role))
  {
  }

  /** Timetables: any caller lists; only admins write. */
  lemma TimetableAccess(role: Option<string>)
    ensures Allows(ListTimetables.guard, role)
    ensures Allows(CreateTimetable.guard, role) <==> role in {Some("admin"), Some("superadmin")}
    ensures Allows(UpdateTimetable.guard, role) <==> Allows(CreateTimetable.guard, role)
  {
  }

  /** A caller whose token has no role claim gets only the token-only routes. */
  lemma NoRoleOnlyOpenRoutes(route: Route)
    requires route in AllRoutes
    ensures Allows(route.guard, None) <==> route.guard.TokenOnly?
  {
  }
}
