/** Weekly timetables: one per class, section, day and academic year. */
module Timetables {

  import opened Wrappers
  import opened Http
  import Seqs
  import Store

  const Days: seq<string> := ["Monday", "Tuesday", "Wednesday", "Thursday", "Friday", "Saturday", "Sunday"]

  /** One period; times are the `"HH:MM"` strings the client sends. */
  datatype Slot = Slot(startTime: string, endTime: string, subject: string, teacherId: string, room: Option<string>)

  datatype Timetable = Timetable(className: string, section: string, academicYear: string, day: string,
                                 slots: seq<Slot>, active: bool)

  type Timetables = seq<Store.Doc<Timetable>>

  /** The fields of the compound unique index. */
  datatype TimetableKey = TimetableKey(className: string, section: string, day: string, academicYear: string)

  function Key(t: Timetable): TimetableKey { TimetableKey(t.className, t.section, t.day, t.academicYear) }

  datatype TimetableInput = TimetableInput(
    className: Option<string>,
    section: Option<string>,
    academicYear: Option<string>,
    day: Option<string>,
    slots: Option<seq<Slot>>,
    active: Option<bool>)

  predicate ValidSlot(s: Slot) {
    s.startTime != "" && s.endTime != "" && s.subject != "" && Store.IsObjectId(s.teacherId)
  }

  predicate SetNonEmpty(s: Option<string>) { s.None? || s.value != "" }

  predicate ValidPatch(b: TimetableInput) {
    && SetNonEmpty(b.className) && SetNonEmpty(b.section) && SetNonEmpty(b.academicYear)
    && (b.day.None? || b.day.value in Days)
    && (b.slots.None? || forall s :: s in b.slots.value ==> ValidSlot(s))
  }

  predicate ValidInput(b: TimetableInput) {
    b.className.Some? && b.section.Some? && b.academicYear.Some? && b.day.Some? && ValidPatch(b)
  }

  function FromInput(b: TimetableInput): (t: Timetable)
    requires ValidInput(b)
    ensures t.className == b.className.value && t.section == b.section.value
    ensures t.academicYear == b.academicYear.value && t.day == b.day.value
    ensures t.slots == b.slots.GetOr([]) && t.active == b.active.GetOr(true)
    ensures t.day in Days && t.className != "" && t.section != "" && t.academicYear != ""
    ensures forall s :: s in t.slots ==> ValidSlot(s)
  {
    Timetable(b.className.value, b.section.value, b.academicYear.value, b.day.value,
              b.slots.GetOr([]), b.active.GetOr(true))
  }

  /** `createTimetable`: validation failure 500; a timetable already stored for the same
      class, section, day and year 400; otherwise stored. */
  function CreateTimetable(store: Timetables, b: TimetableInput, newId: string): (r: Step<Timetable, Timetables>)
    ensures !ValidInput(b) ==> r == Step(Failure(SERVER_ERROR, "Server error"), store)
    ensures ValidInput(b) && Store.Collides(store, newId, Key, Key(FromInput(b))) ==>
      r == Step(Failure(BAD_REQUEST, "Duplicate"), store)
    ensures r.response.Success? <==> ValidInput(b) && !Store.Collides(store, newId, Key, Key(FromInput(b)))
    ensures r.response.Success? ==>
      r.response == Success(CREATED, FromInput(b)) && r.store == Store.Insert(store, newId, FromInput(b))
  {
    if !ValidInput(b) then Step(Failure(SERVER_ERROR, "Server error"), store)
    else
      var t := FromInput(b);
      if Store.Collides(store, newId, Key, Key(t)) then Step(Failure(BAD_REQUEST, "Duplicate"), store)
      else Step(Success(CREATED, t), Store.Insert(store, newId, t))
  }

  function Patch(t: Timetable, b: TimetableInput): (r: Timetable)
    ensures Key(r) == TimetableKey(b.className.GetOr(t.className), b.section.GetOr(t.section),
                                   b.day.GetOr(t.day), b.academicYear.GetOr(t.academicYear))
    ensures r.slots == b.slots.GetOr(t.slots) && r.active == b.active.GetOr(t.active)
  {
    Timetable(b.className.GetOr(t.className), b.section.GetOr(t.section), b.academicYear.GetOr(t.academicYear),
              b.day.GetOr(t.day), b.slots.GetOr(t.slots), b.active.GetOr(t.active))
  }

  /** `updateTimetable`: invalid fields or a malformed id 500, unknown id 404; moving onto
      another timetable's class, section, day and year violates the index (500); otherwise
      patched. */
  function UpdateTimetable(store: Timetables, id: string, b: TimetableInput): (r: Step<Timetable, Timetables>)
    ensures !ValidPatch(b) ==> r == Step(Failure(SERVER_ERROR, "Server error"), store)
    ensures ValidPatch(b) && Store.IsObjectId(id) && !Store.HasId(store, Store.Canon(id)) ==>
      r == Step(Failure(NOT_FOUND, "Not found"), store)
    ensures ValidPatch(b) && !Store.IsObjectId(id) ==> r == Step(Failure(SERVER_ERROR, "Server error"), store)
    ensures ValidPatch(b) && Store.IsObjectId(id) && Store.HasId(store, Store.Canon(id))
            && Store.Collides(store, Store.Canon(id), Key, Key(Patch(Store.Find(store, Store.Canon(id)).value, b))) ==>
      r == Step(Failure(SERVER_ERROR, "Server error"), store)
    ensures r.response.Failure? ==> r.store == store && r.response.code in {SERVER_ERROR, NOT_FOUND}
    ensures r.response.Success? ==>
      && ValidPatch(b) && Store.IsObjectId(id) && Store.Find(store, Store.Canon(id)).Some?
      && r.response == Success(OK, Patch(Store.Find(store, Store.Canon(id)).value, b))
      && !Store.Collides(store, Store.Canon(id), Key, Key(r.response.data))
      && r.store == Store.Update(store, Store.Canon(id), (_: Timetable) => r.response.data)
    ensures ValidPatch(b) && Store.IsObjectId(id) && Store.HasId(store, Store.Canon(id)) ==>
      (r.response.Success? <==> !Store.Collides(store, Store.Canon(id), Key, Key(Patch(Store.Find(store, Store.Canon(id)).value, b))))
  {
    if !ValidPatch(b) then Step(Failure(SERVER_ERROR, "Server error"), store)
    else match Store.Lookup(store, id)
      case Halt(code, e) => Step(Failure(code, e), store)
      case Next(t) =>
        var t' := Patch(t, b);
        if Store.Collides(store, Store.Canon(id), Key, Key(t')) then Step(Failure(SERVER_ERROR, "Server error"), store)
        else Step(Success(OK, t'), Store.Update(store, Store.Canon(id), (_: Timetable) => t'))
  }

  /** Creation and update keep one timetable per class, section, day and year. */
  lemma HandlersKeepIndex(store: Timetables, b: TimetableInput, id: string, newId: string)
    requires Store.UniqueIds(store) && Store.UniqueKey(store, Key) && !Store.HasId(store, newId)
    ensures Store.UniqueIds(CreateTimetable(store, b, newId).store) && Store.UniqueKey(CreateTimetable(store, b, newId).store, Key)
    ensures Store.UniqueIds(UpdateTimetable(store, id, b).store) && Store.UniqueKey(UpdateTimetable(store, id, b).store, Key)
  {
    if CreateTimetable(store, b, newId).response.Success? {
      Store.InsertKeepsUnique(store, newId, FromInput(b), Key);
    }
    var u := UpdateTimetable(store, id, b);
    if u.response.Success? {
      Store.UpdateKeepsUnique(store, Store.Canon(id), (_: Timetable) => u.response.data, Key);
    }
  }

  /** The query of a list request; an empty string is no filter. */
  datatype TimetableQuery = TimetableQuery(className: string, section: string, day: string, academicYear: string)

  predicate Matches(t: Timetable, q: TimetableQuery) {
    && (q.className == "" || t.className == q.className)
    && (q.section == "" || t.section == q.section)
    && (q.day == "" || t.day == q.day)
    && (q.academicYear == "" || t.academicYear == q.academicYear)
  }

  /** `getTimetable`: the matching timetables in stored order (no sort is requested). */
  function GetTimetable(store: Timetables, q: TimetableQuery): (r: seq<Store.Doc<Timetable>>)
    ensures forall d :: d in r <==> d in store && Matches(d.body, q)
    ensures Seqs.IsSubsequence(r, store)
  {
    Seqs.FilterIsSubsequence(store, (d: Store.Doc<Timetable>) => Matches(d.body, q));
    Seqs.Filter(store, (d: Store.Doc<Timetable>) => Matches(d.body, q))
  }

  /** With every key field given, at most one timetable matches. */
  lemma FullQueryAtMostOne(store: Timetables, q: TimetableQuery)
    requires Store.UniqueKey(store, Key)
    requires q.className != "" && q.section != "" && q.day != "" && q.academicYear != ""
    ensures |GetTimetable(store, q)| <= 1
  {
    var r := GetTimetable(store, q);
    if |r| > 1 {
      assert r[0] in r && r[1] in r;
      assert Key(r[0].body) == Key(r[1].body);
      Store.SubsequenceKeepsUnique(r, store, Key);
      assert false;
    }
  }
}
