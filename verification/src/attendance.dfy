/** Attendance sessions: the session/record documents, their derived counts, and the session
    handlers (create, mark, view, report, lock). The collection is keyed by `sessionId`, the
    uniquely indexed field every handler looks sessions up by. */
module Attendance {

  import opened Wrappers
  import opened Http
  import Seqs
  import Store
  import Strings

  const Methods: seq<string> := ["qr", "manual", "barcode", "face"]
  const Statuses: seq<string> := ["present", "absent", "late"]

  /** One student's entry in a session. */
  datatype Record = Record(studentId: string, status: string, timestamp: int, deviceId: Option<string>)

  datatype Session = Session(
    className: string,
    section: string,
    subject: string,
    date: int,
    takenBy: string,
    markingMethod: string,
    records: seq<Record>,
    locked: bool)

  /** The attendance collection, each document under its `sessionId`. */
  type Sessions = seq<Store.Doc<Session>>

  /** One element of the `records` array of a mark request; absent fields are `None`. */
  datatype Mark = Mark(studentId: string, status: Option<string>, timestamp: Option<int>, deviceId: Option<string>)

  /** The body of a create-session request; a missing or empty string is falsy. */
  datatype SessionInput = SessionInput(
    sessionId: string,
    className: string,
    section: string,
    subject: string,
    date: Option<int>,
    markingMethod: string)

  // ---------------------------------------------------------------------------------------------
  // Schema rules and derived counts

  predicate IsPresent(r: Record) { r.status == "present" }
  predicate IsAbsent(r: Record) { r.status == "absent" }
  predicate IsLate(r: Record) { r.status == "late" }

  /** The `totalStudents` virtual: one per record, which for records the schema accepts is
      the sum of the three status counts. */
  function TotalStudents(s: Session): (n: nat)
    ensures n == |s.records|
    ensures ValidRecords(s.records) ==> n == PresentCount(s) + AbsentCount(s) + LateCount(s)
  {
    Seqs.CountPartition(s.records, IsPresent, IsAbsent, IsLate);
    |s.records|
  }

  /** The `presentCount`, `absentCount` and `lateCount` virtuals: the number of records with
      exactly that status. */
  function PresentCount(s: Session): (n: nat)
    ensures n == |set i | 0 <= i < |s.records| && s.records[i].status == "present"|
  {
    Seqs.CountIndices(s.records, IsPresent);
    assert Seqs.Positions(s.records, IsPresent) == set i | 0 <= i < |s.records| && s.records[i].status == "present";
    Seqs.Count(s.records, IsPresent)
  }

  function AbsentCount(s: Session): (n: nat)
    ensures n == |set i | 0 <= i < |s.records| && s.records[i].status == "absent"|
  {
    Seqs.CountIndices(s.records, IsAbsent);
    assert Seqs.Positions(s.records, IsAbsent) == set i | 0 <= i < |s.records| && s.records[i].status == "absent";
    Seqs.Count(s.records, IsAbsent)
  }

  function LateCount(s: Session): (n: nat)
    ensures n == |set i | 0 <= i < |s.records| && s.records[i].status == "late"|
  {
    Seqs.CountIndices(s.records, IsLate);
    assert Seqs.Positions(s.records, IsLate) == set i | 0 <= i < |s.records| && s.records[i].status == "late";
    Seqs.Count(s.records, IsLate)
  }

  /** A record the schema accepts: a castable student reference and a status from the enum. */
  predicate ValidRecord(r: Record) {
    Store.IsObjectId(r.studentId) && r.status in Statuses
  }

  predicate ValidRecords(recs: seq<Record>) {
    forall i :: 0 <= i < |recs| ==> ValidRecord(recs[i])
  }

  /** Each count is bounded by the total, and for records the schema accepts the three counts
      add up to the total. */
  lemma CountsPartitionTotal(s: Session)
    ensures PresentCount(s) <= TotalStudents(s)
    ensures AbsentCount(s) <= TotalStudents(s)
    ensures LateCount(s) <= TotalStudents(s)
    ensures PresentCount(s) + AbsentCount(s) + LateCount(s) <= TotalStudents(s)
    ensures ValidRecords(s.records) ==> PresentCount(s) + AbsentCount(s) + LateCount(s) == TotalStudents(s)
  {
    Seqs.CountPartition(s.records, IsPresent, IsAbsent, IsLate);
  }

  // ---------------------------------------------------------------------------------------------
  // Marking: upsert by studentId, in request order

  /** `records.findIndex(r => r.studentId === sid)`. */
  function IndexOfStudent(recs: seq<Record>, sid: string): (r: Option<nat>)
    ensures r.Some? ==> r.value < |recs| && recs[r.value].studentId == sid
    ensures r.Some? ==> forall k :: 0 <= k < r.value ==> recs[k].studentId != sid
    ensures r.None? <==> sid !in StudentIds(recs)
  {
    if |recs| == 0 then None
    else if recs[0].studentId == sid then Some(0)
    else match IndexOfStudent(recs[1..], sid)
      case Some(k) =>
        assert recs[k + 1] == recs[1..][k];
        Some(k + 1)
      case None =>
        assert forall i :: 1 <= i < |recs| ==> recs[i] == recs[1..][i - 1];
        None
  }

  /** The studentIds holding a record. */
  function StudentIds(recs: seq<Record>): set<string> {
    set i | 0 <= i < |recs| :: recs[i].studentId
  }

  /** No student holds two records. */
  predicate DistinctStudents(recs: seq<Record>) {
    forall i, j :: 0 <= i < j < |recs| ==> recs[i].studentId != recs[j].studentId
  }

  /** `value || new Date()`: a missing or zero time is falsy and gives way to `now`. */
  function OrNow(t: Option<int>, now: int): (r: int)
    ensures t.Some? && t.value != 0 ==> r == t.value
    ensures t.None? || t.value == 0 ==> r == now
  {
    if t.Some? && t.value != 0 then t.value else now
  }

  /** One iteration of the marking loop, as intended: a student who already has a record gets
      it merged with the request's fields and stamped `now`; anyone else gets a new record
      appended, stamped with the supplied timestamp or `now`. A field the request leaves out
      keeps its stored value on a merge. Ids are compared in canonical form, which
      `CanonBatch` establishes before the loop. */
  function Upsert(recs: seq<Record>, m: Mark, now: int): (r: seq<Record>)
    ensures m.studentId in StudentIds(recs) ==> |r| == |recs|
    ensures m.studentId !in StudentIds(recs) ==>
              r == recs + [Record(m.studentId, m.status.GetOr(""), OrNow(m.timestamp, now), m.deviceId)]
    ensures forall i :: 0 <= i < |recs| ==> r[i].studentId == recs[i].studentId
    ensures forall i :: 0 <= i < |recs| && recs[i].studentId != m.studentId ==> r[i] == recs[i]
    ensures forall i :: 0 <= i < |recs| && recs[i].studentId == m.studentId && DistinctStudents(recs) ==>
              r[i].timestamp == now
              && r[i].status == m.status.GetOr(recs[i].status)
              && r[i].deviceId == (if m.deviceId.Some? then m.deviceId else recs[i].deviceId)
  {
    match IndexOfStudent(recs, m.studentId)
    case Some(i) =>
      var prev := recs[i];
      recs[i := Record(m.studentId, m.status.GetOr(prev.status), now,
                       if m.deviceId.Some? then m.deviceId else prev.deviceId)]
    case None =>
      recs + [Record(m.studentId, m.status.GetOr(""), OrNow(m.timestamp, now), m.deviceId)]
  }

  /** The request's marks with each student reference in the canonical form Mongoose stores. */
  function CanonBatch(batch: seq<Mark>): (r: seq<Mark>)
    ensures |r| == |batch|
    ensures forall j :: 0 <= j < |batch| ==> r[j] == batch[j].(studentId := Store.Canon(batch[j].studentId))
  {
    seq(|batch|, j requires 0 <= j < |batch| => batch[j].(studentId := Store.Canon(batch[j].studentId)))
  }

  // ---------------------------------------------------------------------------------------------
  // Marking as written

  /** One iteration of the marking loop as the handler writes it. The stored reference,
      rendered by `toString()` in lower-case hex, is compared with the request's id as sent, so
      an id sent in upper case never finds its record. The replacement object spreads the
      stored subdocument, whose fields Mongoose keeps off its own enumerable properties, so
      the new record holds only what the request sent plus the fresh stamp: an omitted status
      or device is lost rather than kept. */
  function UpsertAsWritten(recs: seq<Record>, m: Mark, now: int): (r: seq<Record>)
    ensures |r| == |recs| || r == recs + [Record(Store.Canon(m.studentId), m.status.GetOr(""), OrNow(m.timestamp, now), m.deviceId)]
    ensures forall i :: 0 <= i < |recs| && recs[i].studentId != m.studentId ==> r[i] == recs[i]
  {
    match IndexOfStudent(recs, m.studentId)
    case Some(i) => recs[i := Record(Store.Canon(m.studentId), m.status.GetOr(""), now, m.deviceId)]
    case None => recs + [Record(Store.Canon(m.studentId), m.status.GetOr(""), OrNow(m.timestamp, now), m.deviceId)]
  }

  function MarkAllAsWritten(recs: seq<Record>, batch: seq<Mark>, now: int): (r: seq<Record>)
    ensures |recs| <= |r| <= |recs| + |batch|
    ensures forall i :: 0 <= i < |recs| && (forall j :: 0 <= j < |batch| ==> batch[j].studentId != recs[i].studentId) ==>
      r[i] == recs[i]
  {
    if |batch| == 0 then recs
    else UpsertAsWritten(MarkAllAsWritten(recs, batch[..|batch| - 1], now), batch[|batch| - 1], now)
  }

  /** Two marks for one student, sent with an id that is not in canonical form (an
      upper-case hex digit, say), leave that student with two records in the session. */
  lemma AsWrittenDuplicatesStudent(u: string, now: int)
    requires Store.Canon(u) != u
    ensures var batch := [Mark(u, Some("present"), None, None), Mark(u, Some("late"), None, None)];
      var r := MarkAllAsWritten([], batch, now);
      |r| == 2 && r[0].studentId == r[1].studentId && !DistinctStudents(r)
  {
    var m0, m1 := Mark(u, Some("present"), None, None), Mark(u, Some("late"), None, None);
    var batch := [m0, m1];
    assert batch[..1] == [m0] && [m0][..0] == [];
    var r1 := MarkAllAsWritten([], [m0], now);
    assert MarkAllAsWritten([], [m0][..0], now) == [];
    assert r1 == UpsertAsWritten([], m0, now);
    assert IndexOfStudent([], u) == None && OrNow(None, now) == now;
    assert r1 == [Record(Store.Canon(u), "present", now, None)];
    assert IndexOfStudent(r1, u) == None;
    assert MarkAllAsWritten([], batch, now) == UpsertAsWritten(r1, m1, now);
  }

  /** An upper-case ObjectId is such an id. */
  lemma UpperCaseIdNotCanonical()
    ensures Store.Canon("507F1F77BCF86CD799439011") != "507F1F77BCF86CD799439011"
  {
    var u := "507F1F77BCF86CD799439011";
    assert Strings.IsUpper(u[3]) && !Strings.IsUpper(Store.Canon(u)[3]);
  }

  /** Re-marking a stored record without a device or a status loses what was stored: the
      device is cleared, and the empty status then fails validation (500). The intended
      merge keeps both. */
  lemma AsWrittenForgetsStoredFields(rec: Record, status: string, device: string, now: int)
    requires Store.Canon(rec.studentId) == rec.studentId
    ensures UpsertAsWritten([rec], Mark(rec.studentId, Some(status), None, None), now)[0].deviceId == None
    ensures UpsertAsWritten([rec], Mark(rec.studentId, None, None, Some(device)), now)[0].status == ""
    ensures !ValidRecords(UpsertAsWritten([rec], Mark(rec.studentId, None, None, Some(device)), now))
    ensures Upsert([rec], Mark(rec.studentId, Some(status), None, None), now)[0].deviceId == rec.deviceId
    ensures Upsert([rec], Mark(rec.studentId, None, None, Some(device)), now)[0].status == rec.status
  {
    assert IndexOfStudent([rec], rec.studentId) == Some(0);
    assert "" !in Statuses;
  }

  /** A mark is full when it names its student canonically and states both status and device:
      then nothing is lost by the replacement and nothing is missed by the comparison. */
  predicate FullMark(m: Mark) {
    Store.Canon(m.studentId) == m.studentId && m.status.Some? && m.deviceId.Some?
  }

  /** On batches of full marks the handler as written and the intended loop agree. */
  lemma {:induction false} AsWrittenAgreesOnFullMarks(recs: seq<Record>, batch: seq<Mark>, now: int)
    requires forall j :: 0 <= j < |batch| ==> FullMark(batch[j])
    ensures MarkAllAsWritten(recs, batch, now) == MarkAll(recs, CanonBatch(batch), now)
    decreases |batch|
  {
    if |batch| > 0 {
      var init := batch[..|batch| - 1];
      var m := batch[|batch| - 1];
      AsWrittenAgreesOnFullMarks(recs, init, now);
      var cb := CanonBatch(batch);
      assert cb[..|cb| - 1] == CanonBatch(init);
      assert cb[|cb| - 1] == m;
    }
  }

  /** The whole marking loop over the request's records, in order. */
  function MarkAll(recs: seq<Record>, batch: seq<Mark>, now: int): (r: seq<Record>)
    ensures |recs| <= |r| <= |recs| + |batch|
  {
    if |batch| == 0 then recs
    else Upsert(MarkAll(recs, batch[..|batch| - 1], now), batch[|batch| - 1], now)
  }

  /** Some mark in the batch is for this student. */
  predicate InBatch(batch: seq<Mark>, sid: string) {
    exists j :: 0 <= j < |batch| && batch[j].studentId == sid
  }

  function BatchIds(batch: seq<Mark>): set<string> {
    set j | 0 <= j < |batch| :: batch[j].studentId
  }

  /** Position `j` holds the last mark for its student. */
  predicate IsLastMark(batch: seq<Mark>, j: int)
    requires 0 <= j < |batch|
  {
    forall k :: j < k < |batch| ==> batch[k].studentId != batch[j].studentId
  }

  lemma UpsertKeepsDistinct(recs: seq<Record>, m: Mark, now: int)
    requires DistinctStudents(recs)
    ensures DistinctStudents(Upsert(recs, m, now))
    ensures StudentIds(Upsert(recs, m, now)) == StudentIds(recs) + {m.studentId}
  {
    var r := Upsert(recs, m, now);
    if m.studentId in StudentIds(recs) {
      assert forall i :: 0 <= i < |r| ==> r[i].studentId == recs[i].studentId;
      assert StudentIds(r) == StudentIds(recs);
    } else {
      assert forall i :: 0 <= i < |recs| ==> recs[i].studentId != m.studentId;
      assert StudentIds(r) == StudentIds(recs) + {r[|recs|].studentId};
    }
  }

  /** Marking keeps one record per student, and the students holding a record afterwards are
      those who held one before plus those named in the request. */
  lemma {:induction false} MarkAllDistinct(recs: seq<Record>, batch: seq<Mark>, now: int)
    requires DistinctStudents(recs)
    ensures DistinctStudents(MarkAll(recs, batch, now))
    ensures StudentIds(MarkAll(recs, batch, now)) == StudentIds(recs) + BatchIds(batch)
    decreases |batch|
  {
    if |batch| > 0 {
      var init := batch[..|batch| - 1];
      var m := batch[|batch| - 1];
      var p := MarkAll(recs, init, now);
      assert MarkAll(recs, batch, now) == Upsert(p, m, now);
      MarkAllDistinct(recs, init, now);
      UpsertKeepsDistinct(p, m, now);
      BatchIdsSnoc(batch);
    }
  }

  lemma BatchIdsSnoc(batch: seq<Mark>)
    requires |batch| > 0
    ensures BatchIds(batch) == BatchIds(batch[..|batch| - 1]) + {batch[|batch| - 1].studentId}
  {
    var init := batch[..|batch| - 1];
    assert forall j :: 0 <= j < |init| ==> init[j] == batch[j];
  }

  /** Marking keeps every stored record at its position, and leaves the records of students
      not named in the request exactly as they were. */
  lemma {:induction false} MarkAllKeepsOthers(recs: seq<Record>, batch: seq<Mark>, now: int)
    ensures |MarkAll(recs, batch, now)| >= |recs|
    ensures forall i :: 0 <= i < |recs| ==> MarkAll(recs, batch, now)[i].studentId == recs[i].studentId
    ensures forall i :: 0 <= i < |recs| && !InBatch(batch, recs[i].studentId) ==> MarkAll(recs, batch, now)[i] == recs[i]
    decreases |batch|
  {
    if |batch| > 0 {
      var init := batch[..|batch| - 1];
      MarkAllKeepsOthers(recs, init, now);
    }
  }

  /** A stored record of a student named in the request is stamped with the time of the
      request. */
  lemma {:induction false} MarkAllStamps(recs: seq<Record>, batch: seq<Mark>, now: int)
    requires DistinctStudents(recs)
    ensures |MarkAll(recs, batch, now)| >= |recs|
    ensures forall i :: 0 <= i < |recs| && InBatch(batch, recs[i].studentId) ==> MarkAll(recs, batch, now)[i].timestamp == now
    decreases |batch|
  {
    if |batch| > 0 {
      var init := batch[..|batch| - 1];
      var m := batch[|batch| - 1];
      var p := MarkAll(recs, init, now);
      assert MarkAll(recs, batch, now) == Upsert(p, m, now);
      MarkAllStamps(recs, init, now);
      MarkAllDistinct(recs, init, now);
      MarkAllKeepsOthers(recs, init, now);
      assert batch == init + [m];
      forall i | 0 <= i < |recs| && InBatch(batch, recs[i].studentId)
        ensures Upsert(p, m, now)[i].timestamp == now
      {
        StampStep(recs, init, m, p, now, i);
      }
    }
  }

  /** The inductive step of `MarkAllStamps` for one stored record. */
  lemma StampStep(recs: seq<Record>, init: seq<Mark>, m: Mark, p: seq<Record>, now: int, i: nat)
    requires DistinctStudents(p) && i < |recs| <= |p| && p[i].studentId == recs[i].studentId
    requires InBatch(init, recs[i].studentId) ==> p[i].timestamp == now
    requires InBatch(init + [m], recs[i].studentId)
    ensures Upsert(p, m, now)[i].timestamp == now
  {
    if recs[i].studentId != m.studentId {
      var b := init + [m];
      var j :| 0 <= j < |b| && b[j].studentId == recs[i].studentId;
      assert j < |init| && init[j] == b[j];
    }
  }

  /** After marking, the record of every student named in the request carries the status of
      that student's last mark (when that mark states one). */
  lemma {:induction false} MarkAllLastWins(recs: seq<Record>, batch: seq<Mark>, now: int)
    requires DistinctStudents(recs)
    ensures var r := MarkAll(recs, batch, now);
      forall j, i ::
        (0 <= j < |batch| && IsLastMark(batch, j) && batch[j].status.Some?
         && 0 <= i < |r| && r[i].studentId == batch[j].studentId) ==> r[i].status == batch[j].status.value
    decreases |batch|
  {
    if |batch| > 0 {
      var init := batch[..|batch| - 1];
      var m := batch[|batch| - 1];
      MarkAllLastWins(recs, init, now);
      MarkAllDistinct(recs, init, now);
      var p := MarkAll(recs, init, now);
      var r := Upsert(p, m, now);
      UpsertKeepsDistinct(p, m, now);
      forall j, i | 0 <= j < |batch| && IsLastMark(batch, j) && batch[j].status.Some?
          && 0 <= i < |r| && r[i].studentId == batch[j].studentId
        ensures r[i].status == batch[j].status.value
      {
        if j == |batch| - 1 {
          if m.studentId in StudentIds(p) {
            assert p[i].studentId == m.studentId;
          }
        } else {
          assert init[j] == batch[j];
          assert IsLastMark(init, j);
          assert batch[j].studentId != m.studentId;
          assert r[i] == p[i];
        }
      }
    }
  }

  /** A sequence of records with distinct students has as many records as students. */
  lemma {:induction false} DistinctCount(recs: seq<Record>)
    requires DistinctStudents(recs)
    ensures |StudentIds(recs)| == |recs|
  {
    if |recs| > 0 {
      var t := recs[1..];
      assert DistinctStudents(t) by {
        forall i, j | 0 <= i < j < |t| ensures t[i].studentId != t[j].studentId {
          assert t[i] == recs[i + 1] && t[j] == recs[j + 1];
        }
      }
      DistinctCount(t);
      StudentIdsCons(recs);
      assert recs[0].studentId !in StudentIds(t) by {
        forall i | 0 <= i < |t| ensures t[i].studentId != recs[0].studentId {
          assert t[i] == recs[i + 1];
        }
      }
    }
  }

  lemma StudentIdsCons(recs: seq<Record>)
    requires |recs| > 0
    ensures StudentIds(recs) == {recs[0].studentId} + StudentIds(recs[1..])
  {
    var t := recs[1..];
    forall x | x in StudentIds(recs) ensures x in {recs[0].studentId} + StudentIds(t) {
      var i :| 0 <= i < |recs| && recs[i].studentId == x;
      if i > 0 { assert t[i - 1] == recs[i]; }
    }
    forall x | x in StudentIds(t) ensures x in StudentIds(recs) {
      var i :| 0 <= i < |t| && t[i].studentId == x;
      assert recs[i + 1] == t[i];
    }
  }

  /** Marking adds exactly one record per student of the request who had none. */
  lemma MarkAllCount(recs: seq<Record>, batch: seq<Mark>, now: int)
    requires DistinctStudents(recs)
    ensures |MarkAll(recs, batch, now)| == |recs| + |BatchIds(batch) - StudentIds(recs)|
  {
    var r := MarkAll(recs, batch, now);
    MarkAllDistinct(recs, batch, now);
    DistinctCount(recs);
    DistinctCount(r);
    var a, b := StudentIds(recs), BatchIds(batch);
    assert a + b == a + (b - a);
    assert a * (b - a) == {};
  }

  // ---------------------------------------------------------------------------------------------
  // Handlers

  /** `createSession`: the new session has no records, is unlocked, is taken by the caller,
      dated `now` and marked `manual` unless the request says otherwise. Mongoose validation
      runs before the unique index, so an invalid request answers 500 even for a taken id. */
  function CreateSession(store: Sessions, input: SessionInput, uid: string, now: int): (r: Step<Session, Sessions>)
    ensures r.response.Success? <==>
      ValidInput(input, uid) && !Store.HasId(store, input.sessionId)
    ensures r.response.Success? ==>
      && r.response.code == CREATED
      && r.store == store + [Store.Doc(input.sessionId, r.response.data)]
      && r.response.data.className == input.className
      && r.response.data.section == input.section
      && r.response.data.subject == input.subject
      && r.response.data.records == []
      && !r.response.data.locked
      && r.response.data.takenBy == Store.Canon(uid)
      && r.response.data.date == OrNow(input.date, now)
      && r.response.data.markingMethod == (if input.markingMethod == "" then "manual" else input.markingMethod)
    ensures ValidInput(input, uid) && Store.HasId(store, input.sessionId) ==>
      r.response == Failure(BAD_REQUEST, "Duplicate")
    ensures r.response.Failure? ==> r.store == store
    ensures Store.UniqueIds(store) ==> Store.UniqueIds(r.store)
  {
    if !ValidInput(input, uid) then Step(Failure(SERVER_ERROR, "Server error"), store)
    else if Store.HasId(store, input.sessionId) then Step(Failure(BAD_REQUEST, "Duplicate"), store)
    else
      var s := Session(input.className, input.section, input.subject, OrNow(input.date, now), Store.Canon(uid),
                       if input.markingMethod == "" then "manual" else input.markingMethod, [], false);
      Step(Success(CREATED, s), Store.Insert(store, input.sessionId, s))
  }

  /** What the schema demands of a new session: the required strings present, a castable
      `takenBy`, and a method from the enum (after the `'manual'` fallback). */
  predicate ValidInput(input: SessionInput, uid: string) {
    && input.sessionId != "" && input.className != "" && input.section != "" && input.subject != ""
    && Store.IsObjectId(uid)
    && (input.markingMethod == "" || input.markingMethod in Methods)
  }

  /** `markAttendance`: unknown session 404, locked session 400. A body without a `records`
      array (`None`) makes the loop throw (500). Otherwise the intended upsert loop runs over
      the canonical marks, and the save fails validation (500) when a touched record is not
      acceptable. */
  function MarkAttendance(store: Sessions, sessionId: string, batch: Option<seq<Mark>>, now: int): (r: Step<Session, Sessions>)
    ensures !Store.HasId(store, sessionId) ==> r == Step(Failure(NOT_FOUND, "Not found"), store)
    ensures Store.Find(store, sessionId).Some? && Store.Find(store, sessionId).value.locked ==>
              r == Step(Failure(BAD_REQUEST, "Locked"), store)
    ensures Store.Find(store, sessionId).Some? && !Store.Find(store, sessionId).value.locked && batch.None? ==>
              r == Step(Failure(SERVER_ERROR, "Server error"), store)
    ensures r.response.Failure? ==> r.store == store
    ensures Store.Find(store, sessionId).Some? && !Store.Find(store, sessionId).value.locked ==>
      (r.response.Success? <==>
        batch.Some? && ValidRecords(MarkAll(Store.Find(store, sessionId).value.records, CanonBatch(batch.value), now)))
    ensures r.response.Success? ==>
      && Store.Find(store, sessionId).Some? && batch.Some?
      && var prev := Store.Find(store, sessionId).value;
      && !prev.locked
      && r.response.code == OK
      && r.response.data == prev.(records := MarkAll(prev.records, CanonBatch(batch.value), now))
      && ValidRecords(r.response.data.records)
      && r.store == Store.Update(store, sessionId, (s: Session) => s.(records := MarkAll(prev.records, CanonBatch(batch.value), now)))
  {
    match Store.Find(store, sessionId)
    case None => Step(Failure(NOT_FOUND, "Not found"), store)
    case Some(s) =>
      if s.locked then Step(Failure(BAD_REQUEST, "Locked"), store)
      else if batch.None? then Step(Failure(SERVER_ERROR, "Server error"), store)
      else
        var recs := MarkAll(s.records, CanonBatch(batch.value), now);
        if !ValidRecords(recs) then Step(Failure(SERVER_ERROR, "Server error"), store)
        else
          Step(Success(OK, s.(records := recs)),
               Store.Update(store, sessionId, (t: Session) => t.(records := recs)))
  }

  /** `getSession`. */
  function GetSession(store: Sessions, sessionId: string): (r: Response<Session>)
    ensures r.Success? <==> Store.HasId(store, sessionId)
    ensures r.Success? ==> r.code == OK && Store.Doc(sessionId, r.data) in store
    ensures r.Failure? ==> r.code == NOT_FOUND
  {
    match Store.Find(store, sessionId)
    case None => Failure(NOT_FOUND, "Not found")
    case Some(s) => Success(OK, s)
  }

  /** `lockSession`: sets the flag on the addressed session and nothing else. */
  function LockSession(store: Sessions, sessionId: string): (r: Step<Session, Sessions>)
    ensures !Store.HasId(store, sessionId) ==> r == Step(Failure(NOT_FOUND, "Not found"), store)
    ensures Store.HasId(store, sessionId) ==>
      && r.response.Success? && r.response.code == OK && r.response.data.locked
      && r.response.data == Store.Find(store, sessionId).value.(locked := true)
    ensures |r.store| == |store|
    ensures forall i :: 0 <= i < |store| ==> r.store[i].id == store[i].id
    ensures forall i :: 0 <= i < |store| ==>
      && r.store[i].body.records == store[i].body.records
      && (r.store[i].body.locked <==> store[i].body.locked || store[i].id == sessionId)
      && r.store[i].body.(locked := store[i].body.locked) == store[i].body
  {
    if !Store.HasId(store, sessionId) then Step(Failure(NOT_FOUND, "Not found"), store)
    else
      var s := Store.Find(store, sessionId).value;
      Step(Success(OK, s.(locked := true)), Store.Update(store, sessionId, (t: Session) => t.(locked := true)))
  }

  lemma LockIdempotent(store: Sessions, sessionId: string)
    ensures LockSession(LockSession(store, sessionId).store, sessionId).store == LockSession(store, sessionId).store
  {
    var once := LockSession(store, sessionId).store;
    var twice := LockSession(once, sessionId).store;
    assert forall i :: 0 <= i < |once| ==> twice[i] == once[i];
  }

  /** The query of a report request; an empty string or `None` is no filter. */
  datatype ReportQuery = ReportQuery(className: string, section: string, from: Option<int>, to: Option<int>)

  predicate InReport(s: Session, q: ReportQuery) {
    && (q.className == "" || s.className == q.className)
    && (q.section == "" || s.section == q.section)
    && (q.from.None? || q.from.value <= s.date)
    && (q.to.None? || s.date <= q.to.value)
  }

  /** `sort({date: -1})`. */
  predicate LaterFirst(a: Store.Doc<Session>, b: Store.Doc<Session>) {
    a.body.date >= b.body.date
  }

  /** `getReport`: the matching sessions, most recent first. */
  function GetReport(store: Sessions, q: ReportQuery): (r: seq<Store.Doc<Session>>)
    ensures forall d :: d in r <==> d in store && InReport(d.body, q)
    ensures multiset(r) == multiset(Seqs.Filter(store, (d: Store.Doc<Session>) => InReport(d.body, q)))
    ensures forall i, j :: 0 <= i < j < |r| ==> r[i].body.date >= r[j].body.date
  {
    var r := Seqs.Query(store, (d: Store.Doc<Session>) => InReport(d.body, q), LaterFirst);
    Seqs.QuerySorted(store, (d: Store.Doc<Session>) => InReport(d.body, q), LaterFirst);
    r
  }

  // ---------------------------------------------------------------------------------------------
  // The lock is one-way

  /** The requests that touch the attendance collection. */
  datatype Request =
    | Create(input: SessionInput, uid: string)
    | MarkRecords(sessionId: string, batch: Option<seq<Mark>>)
    | View(sessionId: string)
    | Report(query: ReportQuery)
    | Lock(sessionId: string)

  function Apply(store: Sessions, req: Request, now: int): Sessions {
    match req
    case Create(input, uid) => CreateSession(store, input, uid, now).store
    case MarkRecords(sid, batch) => MarkAttendance(store, sid, batch, now).store
    case View(_) => store
    case Report(_) => store
    case Lock(sid) => LockSession(store, sid).store
  }

  /** Every session locked before a request is still there, at its place, locked and with its
      records unchanged after it: no request clears the flag or edits a locked session. */
  lemma LockIsOneWay(store: Sessions, req: Request, now: int)
    requires Store.UniqueIds(store)
    ensures var after := Apply(store, req, now);
      forall i :: 0 <= i < |store| && store[i].body.locked ==>
        i < |after| && after[i].id == store[i].id && after[i].body.locked
        && after[i].body.records == store[i].body.records
  {
    match req
    case Create(input, uid) =>
    case MarkRecords(sid, batch) =>
    case View(_) =>
    case Report(_) =>
    case Lock(sid) =>
  }

  /** Every request keeps `sessionId` unique. */
  lemma RequestsKeepIdsUnique(store: Sessions, req: Request, now: int)
    requires Store.UniqueIds(store)
    ensures Store.UniqueIds(Apply(store, req, now))
  {
  }
}
