/** Student records: listing with filters and text search, lookup, creation under a unique
    `studentId`, update and deletion. */
module Students {

  import opened Wrappers
  import opened Http
  import Seqs
  import Store
  import Strings
  import opened People

  const Genders: seq<string> := ["M", "F", "Other"]
  const Statuses: seq<string> := ["active", "inactive", "graduated", "transferred"]

  datatype Guardian = Guardian(name: string, relation: string, phone: string, email: Option<string>)

  datatype Student = Student(
    studentId: string,
    name: Name,
    dob: Date,
    gender: string,
    className: string,
    section: string,
    guardians: seq<Guardian>,
    status: string)

  type Students = seq<Store.Doc<Student>>

  /** The body of a create or update request. A `name` replaces both parts together. */
  datatype StudentInput = StudentInput(
    studentId: Option<string>,
    name: Option<Name>,
    dob: Option<Date>,
    gender: Option<string>,
    className: Option<string>,
    section: Option<string>,
    guardians: Option<seq<Guardian>>,
    status: Option<string>)

  /** A `required` string is present and not empty. */
  predicate Present(s: Option<string>) { s.Some? && s.value != "" }

  predicate ValidGuardian(g: Guardian) { g.name != "" && g.relation != "" && g.phone != "" }

  predicate ValidName(n: Name) { n.first != "" && n.last != "" }

  /** The checks an update's validators run: only on the fields the body sets. */
  predicate ValidPatch(b: StudentInput) {
    && (b.studentId.None? || b.studentId.value != "")
    && (b.name.None? || ValidName(b.name.value))
    && (b.gender.None? || b.gender.value in Genders)
    && (b.className.None? || b.className.value != "")
    && (b.section.None? || b.section.value != "")
    && (b.guardians.None? || forall g :: g in b.guardians.value ==> ValidGuardian(g))
    && (b.status.None? || b.status.value in Statuses)
  }

  /** Schema validation of a new student: every required field present, plus the checks on
      what is given. */
  predicate ValidInput(b: StudentInput) {
    && Present(b.studentId) && b.name.Some? && b.dob.Some? && b.gender.Some?
    && Present(b.className) && Present(b.section)
    && ValidPatch(b)
  }

  function FromInput(b: StudentInput): (s: Student)
    requires ValidInput(b)
    ensures s.studentId == b.studentId.value && s.name == b.name.value && s.dob == b.dob.value
    ensures s.gender == b.gender.value && s.className == b.className.value && s.section == b.section.value
    ensures s.guardians == b.guardians.GetOr([]) && s.status == b.status.GetOr("active")
    ensures s.gender in Genders && s.status in Statuses
  {
    Student(b.studentId.value, b.name.value, b.dob.value, b.gender.value, b.className.value,
            b.section.value, b.guardians.GetOr([]), b.status.GetOr("active"))
  }

  function StudentKey(s: Student): string { s.studentId }

  /** `createStudent`: validation failure 500; a `studentId` already taken 400; otherwise the
      student is stored, `active` unless the body says otherwise. */
  function CreateStudent(store: Students, b: StudentInput, newId: string): (r: Step<Student, Students>)
    ensures !ValidInput(b) ==> r == Step(Failure(SERVER_ERROR, "Server error"), store)
    ensures ValidInput(b) && Store.Collides(store, newId, StudentKey, b.studentId.value) ==>
      r == Step(Failure(BAD_REQUEST, "Duplicate"), store)
    ensures r.response.Success? <==> ValidInput(b) && !Store.Collides(store, newId, StudentKey, b.studentId.value)
    ensures r.response.Success? ==>
      r.response == Success(CREATED, FromInput(b)) && r.store == Store.Insert(store, newId, FromInput(b))
  {
    if !ValidInput(b) then Step(Failure(SERVER_ERROR, "Server error"), store)
    else if Store.Collides(store, newId, StudentKey, b.studentId.value) then Step(Failure(BAD_REQUEST, "Duplicate"), store)
    else
      var s := FromInput(b);
      Step(Success(CREATED, s), Store.Insert(store, newId, s))
  }

  /** `getStudentById`. */
  function GetStudent(store: Students, id: string): (r: Response<Student>)
    ensures !Store.IsObjectId(id) ==> r == Failure(SERVER_ERROR, "Server error")
    ensures Store.IsObjectId(id) && !Store.HasId(store, Store.Canon(id)) ==> r == Failure(NOT_FOUND, "Not found")
    ensures r.Success? <==> Store.IsObjectId(id) && Store.HasId(store, Store.Canon(id))
    ensures r.Success? ==> r.code == OK && Store.Doc(Store.Canon(id), r.data) in store
  {
    match Store.Lookup(store, id)
    case Halt(code, e) => Failure(code, e)
    case Next(s) => Success(OK, s)
  }

  function Patch(s: Student, b: StudentInput): (r: Student)
    ensures r.studentId == b.studentId.GetOr(s.studentId) && r.name == b.name.GetOr(s.name)
    ensures r.dob == b.dob.GetOr(s.dob) && r.gender == b.gender.GetOr(s.gender)
    ensures r.className == b.className.GetOr(s.className) && r.section == b.section.GetOr(s.section)
    ensures r.status == b.status.GetOr(s.status) && r.guardians == b.guardians.GetOr(s.guardians)
    ensures b == StudentInput(None, None, None, None, None, None, None, None) ==> r == s
  {
    Student(b.studentId.GetOr(s.studentId), b.name.GetOr(s.name), b.dob.GetOr(s.dob),
            b.gender.GetOr(s.gender), b.className.GetOr(s.className), b.section.GetOr(s.section),
            b.guardians.GetOr(s.guardians), b.status.GetOr(s.status))
  }

  /** `updateStudent`: invalid fields or a malformed id 500, unknown id 404; a `studentId`
      another student holds violates the unique index, which this handler reports as 500 (not
      the 400 of creation); otherwise the student becomes the patched one. */
  function UpdateStudent(store: Students, id: string, b: StudentInput): (r: Step<Student, Students>)
    ensures !ValidPatch(b) ==> r == Step(Failure(SERVER_ERROR, "Server error"), store)
    ensures ValidPatch(b) && Store.IsObjectId(id) && !Store.HasId(store, Store.Canon(id)) ==>
      r == Step(Failure(NOT_FOUND, "Not found"), store)
    ensures ValidPatch(b) && !Store.IsObjectId(id) ==> r == Step(Failure(SERVER_ERROR, "Server error"), store)
    ensures ValidPatch(b) && Store.IsObjectId(id) && Store.HasId(store, Store.Canon(id))
            && Store.Collides(store, Store.Canon(id), StudentKey, Patch(Store.Find(store, Store.Canon(id)).value, b).studentId) ==>
      r == Step(Failure(SERVER_ERROR, "Server error"), store)
    ensures r.response.Failure? ==> r.store == store && r.response.code in {SERVER_ERROR, NOT_FOUND}
    ensures r.response.Success? ==>
      && ValidPatch(b) && Store.IsObjectId(id) && Store.Find(store, Store.Canon(id)).Some?
      && r.response == Success(OK, Patch(Store.Find(store, Store.Canon(id)).value, b))
      && !Store.Collides(store, Store.Canon(id), StudentKey, r.response.data.studentId)
      && r.store == Store.Update(store, Store.Canon(id), (_: Student) => r.response.data)
    ensures ValidPatch(b) && Store.IsObjectId(id) && Store.HasId(store, Store.Canon(id)) ==>
      (r.response.Success? <==> !Store.Collides(store, Store.Canon(id), StudentKey, Patch(Store.Find(store, Store.Canon(id)).value, b).studentId))
  {
    if !ValidPatch(b) then Step(Failure(SERVER_ERROR, "Server error"), store)
    else match Store.Lookup(store, id)
      case Halt(code, e) => Step(Failure(code, e), store)
      case Next(s) =>
        var s' := Patch(s, b);
        if Store.Collides(store, Store.Canon(id), StudentKey, s'.studentId) then Step(Failure(SERVER_ERROR, "Server error"), store)
        else Step(Success(OK, s'), Store.Update(store, Store.Canon(id), (_: Student) => s'))
  }

  /** `deleteStudent`. */
  function DeleteStudent(store: Students, id: string): (r: Step<string, Students>)
    ensures !Store.IsObjectId(id) ==> r == Step(Failure(SERVER_ERROR, "Server error"), store)
    ensures Store.IsObjectId(id) && !Store.HasId(store, Store.Canon(id)) ==> r == Step(Failure(NOT_FOUND, "Not found"), store)
    ensures Store.IsObjectId(id) && Store.HasId(store, Store.Canon(id)) ==>
      && r.response == Success(OK, "Student deleted successfully")
      && !Store.HasId(r.store, Store.Canon(id))
      && forall d :: d in r.store <==> d in store && d.id != Store.Canon(id)
  {
    match Store.Lookup(store, id)
    case Halt(code, e) => Step(Failure(code, e), store)
    case Next(_) => Step(Success(OK, "Student deleted successfully"), Store.Remove(store, Store.Canon(id)))
  }

  /** Creating keeps `_id`s and `studentId`s unique. */
  lemma CreateKeepsIndexes(store: Students, b: StudentInput, newId: string)
    requires Store.UniqueIds(store) && Store.UniqueKey(store, StudentKey) && !Store.HasId(store, newId)
    ensures var r := CreateStudent(store, b, newId).store;
      Store.UniqueIds(r) && Store.UniqueKey(r, StudentKey)
  {
    if CreateStudent(store, b, newId).response.Success? {
      Store.InsertKeepsUnique(store, newId, FromInput(b), StudentKey);
    }
  }

  /** Updating keeps `_id`s and `studentId`s unique. */
  lemma UpdateKeepsIndexes(store: Students, b: StudentInput, id: string)
    requires Store.UniqueIds(store) && Store.UniqueKey(store, StudentKey)
    ensures var r := UpdateStudent(store, id, b).store;
      Store.UniqueIds(r) && Store.UniqueKey(r, StudentKey)
  {
    var u := UpdateStudent(store, id, b);
    if u.response.Success? {
      Store.UpdateKeepsUnique(store, Store.Canon(id), (_: Student) => u.response.data, StudentKey);
    }
  }

  /** Deleting keeps `_id`s and `studentId`s unique. */
  lemma DeleteKeepsIndexes(store: Students, id: string)
    requires Store.UniqueIds(store) && Store.UniqueKey(store, StudentKey)
    ensures var r := DeleteStudent(store, id).store;
      Store.UniqueIds(r) && Store.UniqueKey(r, StudentKey)
  {
    if Store.IsObjectId(id) && Store.HasId(store, Store.Canon(id)) {
      Store.RemoveKeepsUnique(store, Store.Canon(id), StudentKey);
    }
  }

  /** The query of a list request; an empty string is no filter. Matching of `search` is
      MongoDB's text search, given here as `textMatch`. */
  datatype StudentQuery = StudentQuery(className: string, section: string, status: string, search: string)

  predicate Matches(s: Student, q: StudentQuery, textMatch: (string, Student) -> bool) {
    && (q.className == "" || s.className == q.className)
    && (q.section == "" || s.section == q.section)
    && (q.status == "" || s.status == q.status)
    && (q.search == "" || textMatch(q.search, s))
  }

  /** `sort({'name.first': 1})`: code-point order on first names. */
  predicate FirstNameOrder(a: Store.Doc<Student>, b: Store.Doc<Student>) {
    Strings.LexLe(a.body.name.first, b.body.name.first)
  }

  /** `getAllStudents`: the matching students, by first name. */
  function GetAllStudents(store: Students, q: StudentQuery, textMatch: (string, Student) -> bool): (r: seq<Store.Doc<Student>>)
    ensures forall d :: d in r <==> d in store && Matches(d.body, q, textMatch)
    ensures multiset(r) == multiset(Seqs.Filter(store, (d: Store.Doc<Student>) => Matches(d.body, q, textMatch)))
    ensures forall i, j :: 0 <= i < j < |r| ==> Strings.LexLe(r[i].body.name.first, r[j].body.name.first)
  {
    People.FirstNameOrderIsTotalOrder((d: Store.Doc<Student>) => d.body.name, FirstNameOrder);
    Seqs.QuerySorted(store, (d: Store.Doc<Student>) => Matches(d.body, q, textMatch), FirstNameOrder);
    Seqs.Query(store, (d: Store.Doc<Student>) => Matches(d.body, q, textMatch), FirstNameOrder)
  }
}
