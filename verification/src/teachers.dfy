/** Teacher records: listing by subject and activity, lookup, creation under three unique
    keys (`teacherId`, lower-cased `email`, `firebaseUid`), update and deletion. */
module Teachers {

  import opened Wrappers
  import opened Http
  import Seqs
  import Store
  import Strings
  import opened People

  datatype ClassRef = ClassRef(className: string, section: string)

  datatype Teacher = Teacher(
    teacherId: string,
    name: Name,
    email: string,
    phone: string,
    subjects: seq<string>,
    assignedClasses: seq<ClassRef>,
    firebaseUid: string,
    active: bool)

  type Teachers = seq<Store.Doc<Teacher>>

  /** The body of a create or update request. */
  datatype TeacherInput = TeacherInput(
    teacherId: Option<string>,
    name: Option<Name>,
    email: Option<string>,
    phone: Option<string>,
    subjects: Option<seq<string>>,
    assignedClasses: Option<seq<ClassRef>>,
    firebaseUid: Option<string>,
    active: Option<bool>)

  predicate Present(s: Option<string>) { s.Some? && s.value != "" }

  predicate SetNonEmpty(s: Option<string>) { s.None? || s.value != "" }

  /** The checks an update's validators run, on the fields the body sets. */
  predicate ValidPatch(b: TeacherInput) {
    && SetNonEmpty(b.teacherId) && SetNonEmpty(b.email) && SetNonEmpty(b.phone) && SetNonEmpty(b.firebaseUid)
    && (b.name.None? || (b.name.value.first != "" && b.name.value.last != ""))
    && (b.subjects.None? || forall s :: s in b.subjects.value ==> s != "")
    && (b.assignedClasses.None? || forall c :: c in b.assignedClasses.value ==> c.className != "" && c.section != "")
  }

  predicate ValidInput(b: TeacherInput) {
    && Present(b.teacherId) && b.name.Some? && Present(b.email) && Present(b.phone) && Present(b.firebaseUid)
    && ValidPatch(b)
  }

  /** The schema's `lowercase` setter runs before validation and before the unique index. */
  function FromInput(b: TeacherInput): (t: Teacher)
    requires ValidInput(b)
    ensures t.teacherId == b.teacherId.value && t.firebaseUid == b.firebaseUid.value
    ensures t.name == b.name.value && t.phone == b.phone.value
    ensures t.subjects == b.subjects.GetOr([]) && t.assignedClasses == b.assignedClasses.GetOr([])
    ensures t.email == Strings.ToLower(b.email.value)
    ensures t.active == b.active.GetOr(true)
  {
    Teacher(b.teacherId.value, b.name.value, Strings.ToLower(b.email.value), b.phone.value,
            b.subjects.GetOr([]), b.assignedClasses.GetOr([]), b.firebaseUid.value, b.active.GetOr(true))
  }

  function IdKey(t: Teacher): string { t.teacherId }
  function EmailKey(t: Teacher): string { t.email }
  function UidKey(t: Teacher): string { t.firebaseUid }

  /** `t` would break one of the three unique indexes if stored as document `self`. */
  predicate Clashes(store: Teachers, self: string, t: Teacher) {
    || Store.Collides(store, self, IdKey, t.teacherId)
    || Store.Collides(store, self, EmailKey, t.email)
    || Store.Collides(store, self, UidKey, t.firebaseUid)
  }

  predicate Indexed(store: Teachers) {
    Store.UniqueIds(store) && Store.UniqueKey(store, IdKey) && Store.UniqueKey(store, EmailKey) && Store.UniqueKey(store, UidKey)
  }

  /** `createTeacher`: validation failure 500; any unique key taken 400; otherwise stored,
      active unless the body says otherwise. */
  function CreateTeacher(store: Teachers, b: TeacherInput, newId: string): (r: Step<Teacher, Teachers>)
    ensures !ValidInput(b) ==> r == Step(Failure(SERVER_ERROR, "Server error"), store)
    ensures ValidInput(b) && Clashes(store, newId, FromInput(b)) ==> r == Step(Failure(BAD_REQUEST, "Duplicate"), store)
    ensures r.response.Success? <==> ValidInput(b) && !Clashes(store, newId, FromInput(b))
    ensures r.response.Success? ==>
      r.response == Success(CREATED, FromInput(b)) && r.store == Store.Insert(store, newId, FromInput(b))
  {
    if !ValidInput(b) then Step(Failure(SERVER_ERROR, "Server error"), store)
    else
      var t := FromInput(b);
      if Clashes(store, newId, t) then Step(Failure(BAD_REQUEST, "Duplicate"), store)
      else Step(Success(CREATED, t), Store.Insert(store, newId, t))
  }

  /** Two e-mail addresses that differ only in ASCII letter case cannot both be registered. */
  lemma EmailCaseInsensitive(store: Teachers, b1: TeacherInput, b2: TeacherInput, id1: string, id2: string)
    requires ValidInput(b1) && ValidInput(b2) && id1 != id2
    requires Strings.ToLower(b1.email.value) == Strings.ToLower(b2.email.value)
    requires CreateTeacher(store, b1, id1).response.Success?
    ensures CreateTeacher(CreateTeacher(store, b1, id1).store, b2, id2).response == Failure(BAD_REQUEST, "Duplicate")
  {
    var s1 := CreateTeacher(store, b1, id1).store;
    assert s1[|store|].id == id1 && EmailKey(s1[|store|].body) == FromInput(b2).email;
  }

  /** `getTeacherById`. */
  function GetTeacher(store: Teachers, id: string): (r: Response<Teacher>)
    ensures !Store.IsObjectId(id) ==> r == Failure(SERVER_ERROR, "Server error")
    ensures Store.IsObjectId(id) && !Store.HasId(store, Store.Canon(id)) ==> r == Failure(NOT_FOUND, "Not found")
    ensures r.Success? <==> Store.IsObjectId(id) && Store.HasId(store, Store.Canon(id))
    ensures r.Success? ==> r.code == OK && Store.Doc(Store.Canon(id), r.data) in store
  {
    match Store.Lookup(store, id)
    case Halt(code, e) => Failure(code, e)
    case Next(t) => Success(OK, t)
  }

  /** The update's `lowercase` setter applies to a new e-mail too. */
  function Patch(t: Teacher, b: TeacherInput): (r: Teacher)
    ensures r.teacherId == b.teacherId.GetOr(t.teacherId) && r.firebaseUid == b.firebaseUid.GetOr(t.firebaseUid)
    ensures r.email == (if b.email.Some? then Strings.ToLower(b.email.value) else t.email)
    ensures r.name == b.name.GetOr(t.name) && r.phone == b.phone.GetOr(t.phone)
    ensures r.subjects == b.subjects.GetOr(t.subjects) && r.assignedClasses == b.assignedClasses.GetOr(t.assignedClasses)
    ensures r.active == b.active.GetOr(t.active)
    ensures b == TeacherInput(None, None, None, None, None, None, None, None) ==> r == t
  {
    Teacher(b.teacherId.GetOr(t.teacherId), b.name.GetOr(t.name),
            if b.email.Some? then Strings.ToLower(b.email.value) else t.email,
            b.phone.GetOr(t.phone), b.subjects.GetOr(t.subjects), b.assignedClasses.GetOr(t.assignedClasses),
            b.firebaseUid.GetOr(t.firebaseUid), b.active.GetOr(t.active))
  }

  /** `updateTeacher`: invalid fields or a malformed id 500, unknown id 404; a key another
      teacher holds is reported as 500; otherwise the teacher becomes the patched one. */
  function UpdateTeacher(store: Teachers, id: string, b: TeacherInput): (r: Step<Teacher, Teachers>)
    ensures !ValidPatch(b) ==> r == Step(Failure(SERVER_ERROR, "Server error"), store)
    ensures ValidPatch(b) && Store.IsObjectId(id) && !Store.HasId(store, Store.Canon(id)) ==>
      r == Step(Failure(NOT_FOUND, "Not found"), store)
    ensures ValidPatch(b) && !Store.IsObjectId(id) ==> r == Step(Failure(SERVER_ERROR, "Server error"), store)
    ensures ValidPatch(b) && Store.IsObjectId(id) && Store.HasId(store, Store.Canon(id))
            && Clashes(store, Store.Canon(id), Patch(Store.Find(store, Store.Canon(id)).value, b)) ==>
      r == Step(Failure(SERVER_ERROR, "Server error"), store)
    ensures r.response.Failure? ==> r.store == store && r.response.code in {SERVER_ERROR, NOT_FOUND}
    ensures r.response.Success? ==>
      && ValidPatch(b) && Store.IsObjectId(id) && Store.Find(store, Store.Canon(id)).Some?
      && r.response == Success(OK, Patch(Store.Find(store, Store.Canon(id)).value, b))
      && !Clashes(store, Store.Canon(id), r.response.data)
      && r.store == Store.Update(store, Store.Canon(id), (_: Teacher) => r.response.data)
    ensures ValidPatch(b) && Store.IsObjectId(id) && Store.HasId(store, Store.Canon(id)) ==>
      (r.response.Success? <==> !Clashes(store, Store.Canon(id), Patch(Store.Find(store, Store.Canon(id)).value, b)))
  {
    if !ValidPatch(b) then Step(Failure(SERVER_ERROR, "Server error"), store)
    else match Store.Lookup(store, id)
      case Halt(code, e) => Step(Failure(code, e), store)
      case Next(t) =>
        var t' := Patch(t, b);
        if Clashes(store, Store.Canon(id), t') then Step(Failure(SERVER_ERROR, "Server error"), store)
        else Step(Success(OK, t'), Store.Update(store, Store.Canon(id), (_: Teacher) => t'))
  }

  /** `deleteTeacher`. */
  function DeleteTeacher(store: Teachers, id: string): (r: Step<string, Teachers>)
    ensures !Store.IsObjectId(id) ==> r == Step(Failure(SERVER_ERROR, "Server error"), store)
    ensures Store.IsObjectId(id) && !Store.HasId(store, Store.Canon(id)) ==> r == Step(Failure(NOT_FOUND, "Not found"), store)
    ensures Store.IsObjectId(id) && Store.HasId(store, Store.Canon(id)) ==>
      && r.response == Success(OK, "Teacher deleted successfully")
      && !Store.HasId(r.store, Store.Canon(id))
      && forall d :: d in r.store <==> d in store && d.id != Store.Canon(id)
  {
    match Store.Lookup(store, id)
    case Halt(code, e) => Step(Failure(code, e), store)
    case Next(_) => Step(Success(OK, "Teacher deleted successfully"), Store.Remove(store, Store.Canon(id)))
  }

  /** Creation keeps all four unique indexes. */
  lemma CreateKeepsIndexes(store: Teachers, b: TeacherInput, newId: string)
    requires Indexed(store) && !Store.HasId(store, newId)
    ensures Indexed(CreateTeacher(store, b, newId).store)
  {
    if CreateTeacher(store, b, newId).response.Success? {
      var t := FromInput(b);
      Store.InsertKeepsUnique(store, newId, t, IdKey);
      Store.InsertKeepsUnique(store, newId, t, EmailKey);
      Store.InsertKeepsUnique(store, newId, t, UidKey);
    }
  }

  /** An update keeps all four unique indexes. */
  lemma UpdateKeepsIndexes(store: Teachers, id: string, b: TeacherInput)
    requires Indexed(store)
    ensures Indexed(UpdateTeacher(store, id, b).store)
  {
    var u := UpdateTeacher(store, id, b);
    if u.response.Success? {
      var f := (_: Teacher) => u.response.data;
      Store.UpdateKeepsUnique(store, Store.Canon(id), f, IdKey);
      Store.UpdateKeepsUnique(store, Store.Canon(id), f, EmailKey);
      Store.UpdateKeepsUnique(store, Store.Canon(id), f, UidKey);
    }
  }

  /** A deletion keeps all four unique indexes. */
  lemma DeleteKeepsIndexes(store: Teachers, id: string)
    requires Indexed(store)
    ensures Indexed(DeleteTeacher(store, id).store)
  {
    if Store.IsObjectId(id) && Store.HasId(store, Store.Canon(id)) {
      Store.RemoveKeepsUnique(store, Store.Canon(id), IdKey);
      Store.RemoveKeepsUnique(store, Store.Canon(id), EmailKey);
      Store.RemoveKeepsUnique(store, Store.Canon(id), UidKey);
    }
  }

  /** The query of a list request. `subject` and `search` are no filter when empty; `active`
      filters whenever it is present, on whether it is exactly `"true"`. */
  datatype TeacherQuery = TeacherQuery(subject: string, active: Option<string>, search: string)

  predicate Matches(t: Teacher, q: TeacherQuery, textMatch: (string, Teacher) -> bool) {
    && (q.subject == "" || q.subject in t.subjects)
    && (q.active.None? || t.active == (q.active.value == "true"))
    && (q.search == "" || textMatch(q.search, t))
  }

  predicate FirstNameOrder(a: Store.Doc<Teacher>, b: Store.Doc<Teacher>) {
    Strings.LexLe(a.body.name.first, b.body.name.first)
  }

  /** `getAllTeachers`: the matching teachers, by first name. */
  function GetAllTeachers(store: Teachers, q: TeacherQuery, textMatch: (string, Teacher) -> bool): (r: seq<Store.Doc<Teacher>>)
    ensures forall d :: d in r <==> d in store && Matches(d.body, q, textMatch)
    ensures multiset(r) == multiset(Seqs.Filter(store, (d: Store.Doc<Teacher>) => Matches(d.body, q, textMatch)))
    ensures forall i, j :: 0 <= i < j < |r| ==> Strings.LexLe(r[i].body.name.first, r[j].body.name.first)
  {
    People.FirstNameOrderIsTotalOrder((d: Store.Doc<Teacher>) => d.body.name, FirstNameOrder);
    Seqs.QuerySorted(store, (d: Store.Doc<Teacher>) => Matches(d.body, q, textMatch), FirstNameOrder);
    Seqs.Query(store, (d: Store.Doc<Teacher>) => Matches(d.body, q, textMatch), FirstNameOrder)
  }

  /** Any `active` value other than `"true"`, the empty string included, lists only
      inactive teachers. */
  lemma ActiveFilterStrict(store: Teachers, v: string, textMatch: (string, Teacher) -> bool)
    requires v != "true"
    ensures forall d :: d in GetAllTeachers(store, TeacherQuery("", Some(v), ""), textMatch) ==> !d.body.active
  {
  }
}
