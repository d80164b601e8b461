/** Assignments and their submissions: listing, creation by a teacher, submission by a student
    (append-only, late when past due), and grading of one submission. */
module Assignments {

  import opened Wrappers
  import opened Http
  import Seqs
  import Store

  const SubmissionStatuses: seq<string> := ["submitted", "graded", "late"]
  const AssignmentStatuses: seq<string> := ["active", "closed", "draft"]

  datatype FileRef = FileRef(filename: string, url: string, size: int)

  datatype Submission = Submission(
    id: string,
    studentId: Option<string>,
    submittedAt: int,
    files: seq<FileRef>,
    marksObtained: Option<int>,
    feedback: Option<string>,
    status: string)

  datatype Assignment = Assignment(
    title: string,
    description: string,
    className: string,
    section: string,
    subject: string,
    teacherId: string,
    dueDate: int,
    totalMarks: int,
    submissions: seq<Submission>,
    status: string)

  type Assignments = seq<Store.Doc<Assignment>>

  /** The body of a create request; a `teacherId` in it is ignored, and any `submissions` it
      carries are stored with the assignment. */
  datatype AssignmentInput = AssignmentInput(
    title: Option<string>,
    description: Option<string>,
    className: Option<string>,
    section: Option<string>,
    subject: Option<string>,
    teacherId: Option<string>,
    dueDate: Option<int>,
    totalMarks: Option<int>,
    submissions: Option<seq<Submission>>,
    status: Option<string>)

  predicate Present(s: Option<string>) { s.Some? && s.value != "" }

  predicate ValidInput(b: AssignmentInput, uid: string) {
    && Present(b.title) && Present(b.description) && Present(b.className)
    && Present(b.section) && Present(b.subject) && b.dueDate.Some?
    && Store.IsObjectId(uid)
    && (b.status.None? || b.status.value in AssignmentStatuses)
    && (b.submissions.None? || forall s :: s in b.submissions.value ==> ValidSubmission(s))
  }

  /** What the submission sub-schema demands: a student reference, when there is one, that
      casts to an ObjectId (the reference is not `required`), and a status in the enum. */
  predicate ValidSubmission(s: Submission) {
    (s.studentId.None? || Store.IsObjectId(s.studentId.value)) && s.status in SubmissionStatuses
  }

  /** `createAssignment`: the body's fields, with the author always the caller whatever the body
      says; marks out of 100, no submissions and status `active` unless given. */
  function CreateAssignment(store: Assignments, b: AssignmentInput, uid: string, newId: string): (r: Step<Assignment, Assignments>)
    ensures r.response.Success? <==> ValidInput(b, uid)
    ensures r.response.Failure? ==> r == Step(Failure(SERVER_ERROR, "Server error"), store)
    ensures r.response.Success? ==>
      var a := r.response.data;
      && r.response.code == CREATED
      && a.title == b.title.value && a.description == b.description.value
      && a.className == b.className.value && a.section == b.section.value
      && a.subject == b.subject.value && a.dueDate == b.dueDate.value
      && a.teacherId == Store.Canon(uid)
      && a.submissions == b.submissions.GetOr([])
      && a.totalMarks == b.totalMarks.GetOr(100)
      && a.status == b.status.GetOr("active")
      && r.store == Store.Insert(store, newId, a)
  {
    if !ValidInput(b, uid) then Step(Failure(SERVER_ERROR, "Server error"), store)
    else
      var a := Assignment(b.title.value, b.description.value, b.className.value, b.section.value,
                          b.subject.value, Store.Canon(uid), b.dueDate.value, b.totalMarks.GetOr(100),
                          b.submissions.GetOr([]), b.status.GetOr("active"));
      Step(Success(CREATED, a), Store.Insert(store, newId, a))
  }

  /** A created assignment is what a later lookup of its id finds, and the author is the
      caller even when the body names someone else. */
  lemma CreatedAssignmentFound(store: Assignments, b: AssignmentInput, uid: string, newId: string)
    requires Store.UniqueIds(store) && !Store.HasId(store, newId)
    requires ValidInput(b, uid) && Store.IsObjectId(newId) && Store.Canon(newId) == newId
    ensures var r := CreateAssignment(store, b, uid, newId);
      && Store.Lookup(r.store, newId) == Next(r.response.data)
      && Store.Lookup(r.store, newId).value.teacherId == Store.Canon(uid)
  {
    var r := CreateAssignment(store, b, uid, newId);
    assert r.store[|store|] == Store.Doc(newId, r.response.data);
    assert Store.HasId(r.store, newId);
  }

  /** `submitAssignment`: malformed id 500, unknown assignment 404; otherwise one submission by the caller is
      appended, `late` exactly when the deadline has passed. The caller's uid must cast to the
      student reference, or the save fails (500). `subId` is the new subdocument's id. */
  function SubmitAssignment(store: Assignments, id: string, uid: string, files: seq<FileRef>,
                            now: int, subId: string): (r: Step<Assignment, Assignments>)
    ensures !Store.IsObjectId(id) ==> r == Step(Failure(SERVER_ERROR, "Server error"), store)
    ensures Store.IsObjectId(id) && !Store.HasId(store, Store.Canon(id)) ==> r == Step(Failure(NOT_FOUND, "Not found"), store)
    ensures r.response.Failure? ==> r.store == store
    ensures Store.IsObjectId(id) && Store.HasId(store, Store.Canon(id)) && !Store.IsObjectId(uid) ==>
      r == Step(Failure(SERVER_ERROR, "Server error"), store)
    ensures r.response.Success? <==> Store.IsObjectId(id) && Store.HasId(store, Store.Canon(id)) && Store.IsObjectId(uid)
    ensures r.response.Success? ==>
      && Store.IsObjectId(id) && Store.Find(store, Store.Canon(id)).Some?
      && var a := Store.Find(store, Store.Canon(id)).value;
      var s := r.response.data.submissions;
      && r.response.code == OK
      && r.response.data == a.(submissions := s)
      && |s| == |a.submissions| + 1
      && s[..|a.submissions|] == a.submissions
      && s[|a.submissions|].studentId == Some(Store.Canon(uid))
      && s[|a.submissions|].files == files
      && s[|a.submissions|].submittedAt == now
      && s[|a.submissions|].id == subId
      && s[|a.submissions|].marksObtained.None? && s[|a.submissions|].feedback.None?
      && (s[|a.submissions|].status == "late" <==> now > a.dueDate)
      && (s[|a.submissions|].status == "submitted" <==> now <= a.dueDate)
      && r.store == Store.Update(store, Store.Canon(id), (_: Assignment) => r.response.data)
  {
    match Store.Lookup(store, id)
    case Halt(code, e) => Step(Failure(code, e), store)
    case Next(a) =>
      if !Store.IsObjectId(uid) then Step(Failure(SERVER_ERROR, "Server error"), store)
      else
        var sub := Submission(subId, Some(Store.Canon(uid)), now, files, None, None, if now > a.dueDate then "late" else "submitted");
        var a' := a.(submissions := a.submissions + [sub]);
        Step(Success(OK, a'), Store.Update(store, Store.Canon(id), (_: Assignment) => a'))
  }

  /** Submitting twice keeps both submissions: there is no de-duplication by student. */
  lemma ResubmissionKept(store: Assignments, id: string, uid: string, f1: seq<FileRef>, f2: seq<FileRef>,
                         t1: int, t2: int, s1: string, s2: string)
    requires Store.UniqueIds(store) && Store.IsObjectId(id) && Store.HasId(store, Store.Canon(id)) && Store.IsObjectId(uid)
    ensures var r1 := SubmitAssignment(store, id, uid, f1, t1, s1);
      var r2 := SubmitAssignment(r1.store, id, uid, f2, t2, s2);
      var n := |Store.Find(store, Store.Canon(id)).value.submissions|;
      && r2.response.Success?
      && |r2.response.data.submissions| == n + 2
      && r2.response.data.submissions[n].studentId == Some(Store.Canon(uid))
      && r2.response.data.submissions[n + 1].studentId == Some(Store.Canon(uid))
      && r2.response.data.submissions[n].files == f1
      && r2.response.data.submissions[n + 1].files == f2
  {
    var r1 := SubmitAssignment(store, id, uid, f1, t1, s1);
    var k :| 0 <= k < |store| && store[k].id == Store.Canon(id);
    assert r1.store[k].id == Store.Canon(id);
    assert Store.UniqueIds(r1.store);
    assert Store.Find(r1.store, Store.Canon(id)).value == r1.response.data;
  }

  /** `submissions.id(subId)`: the first submission with that id. */
  function IndexOfSubmission(subs: seq<Submission>, subId: string): (r: Option<nat>)
    ensures r.Some? ==> r.value < |subs| && subs[r.value].id == subId
    ensures r.Some? ==> forall k :: 0 <= k < r.value ==> subs[k].id != subId
    ensures r.None? ==> forall k :: 0 <= k < |subs| ==> subs[k].id != subId
  {
    if |subs| == 0 then None
    else if subs[0].id == subId then Some(0)
    else match IndexOfSubmission(subs[1..], subId)
      case Some(k) => assert subs[k + 1] == subs[1..][k]; Some(k + 1)
      case None => assert forall i :: 1 <= i < |subs| ==> subs[i] == subs[1..][i - 1]; None
  }

  /** `gradeSubmission`: 500 for a malformed id, 404 for an unknown assignment or submission; otherwise that
      submission takes the request's marks and feedback (an omitted one is cleared) and is
      `graded`, and every other submission stays as it was. `submissions.id(subId)` casts
      `subId` and compares canonical forms; a `subId` that does not cast matches nothing. */
  function GradeSubmission(store: Assignments, id: string, subId: string, marks: Option<int>,
                           feedback: Option<string>): (r: Step<Assignment, Assignments>)
    ensures !Store.IsObjectId(id) ==> r == Step(Failure(SERVER_ERROR, "Server error"), store)
    ensures Store.IsObjectId(id) && !Store.HasId(store, Store.Canon(id)) ==> r == Step(Failure(NOT_FOUND, "Not found"), store)
    ensures Store.IsObjectId(id) && Store.HasId(store, Store.Canon(id))
            && (!Store.IsObjectId(subId) || forall s :: s in Store.Find(store, Store.Canon(id)).value.submissions ==> s.id != Store.Canon(subId)) ==>
      r == Step(Failure(NOT_FOUND, "Submission not found"), store)
    ensures r.response.Success? <==>
      && Store.IsObjectId(id) && Store.HasId(store, Store.Canon(id)) && Store.IsObjectId(subId)
      && exists s :: s in Store.Find(store, Store.Canon(id)).value.submissions && s.id == Store.Canon(subId)
    ensures r.response.Success? ==>
      && Store.IsObjectId(id) && Store.Find(store, Store.Canon(id)).Some?
      && var a := Store.Find(store, Store.Canon(id)).value;
      var subs := r.response.data.submissions;
      && r.response.code == OK
      && r.response.data == a.(submissions := subs)
      && |subs| == |a.submissions|
      && Store.IsObjectId(subId)
      && (exists k :: 0 <= k < |subs| && a.submissions[k].id == Store.Canon(subId)
            && subs[k] == a.submissions[k].(marksObtained := marks, feedback := feedback, status := "graded")
            && forall m :: 0 <= m < |subs| && m != k ==> subs[m] == a.submissions[m])
      && r.store == Store.Update(store, Store.Canon(id), (_: Assignment) => r.response.data)
    ensures r.response.Failure? ==> r.store == store
  {
    match Store.Lookup(store, id)
    case Halt(code, e) => Step(Failure(code, e), store)
    case Next(a) =>
      match if Store.IsObjectId(subId) then IndexOfSubmission(a.submissions, Store.Canon(subId)) else None
      case None => Step(Failure(NOT_FOUND, "Submission not found"), store)
      case Some(k) =>
        var s := a.submissions[k];
        var a' := a.(submissions := a.submissions[k := s.(marksObtained := marks, feedback := feedback, status := "graded")]);
        Step(Success(OK, a'), Store.Update(store, Store.Canon(id), (_: Assignment) => a'))
  }

  /** The query of a list request; an empty string is no filter. */
  datatype AssignmentQuery = AssignmentQuery(className: string, section: string, subject: string, status: string)

  predicate Matches(a: Assignment, q: AssignmentQuery) {
    && (q.className == "" || a.className == q.className)
    && (q.section == "" || a.section == q.section)
    && (q.subject == "" || a.subject == q.subject)
    && (q.status == "" || a.status == q.status)
  }

  predicate LaterDueFirst(a: Store.Doc<Assignment>, b: Store.Doc<Assignment>) {
    a.body.dueDate >= b.body.dueDate
  }

  /** `getAllAssignments`: the matching assignments, latest due date first. */
  function GetAllAssignments(store: Assignments, q: AssignmentQuery): (r: seq<Store.Doc<Assignment>>)
    ensures forall d :: d in r <==> d in store && Matches(d.body, q)
    ensures multiset(r) == multiset(Seqs.Filter(store, (d: Store.Doc<Assignment>) => Matches(d.body, q)))
    ensures forall i, j :: 0 <= i < j < |r| ==> r[i].body.dueDate >= r[j].body.dueDate
  {
    Seqs.QuerySorted(store, (d: Store.Doc<Assignment>) => Matches(d.body, q), LaterDueFirst);
    Seqs.Query(store, (d: Store.Doc<Assignment>) => Matches(d.body, q), LaterDueFirst)
  }
}
