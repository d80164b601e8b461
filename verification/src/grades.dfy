/** Report cards: the pre-save computation of total marks, percentage and overall letter grade,
    and the one-card-per-(student, term, year) index. The percentage is kept as the exact ratio
    `num / den` (with `den > 0`). */
module Grades {

  import opened Wrappers
  import Seqs
  import Store

  const Terms: seq<string> := ["Term 1", "Term 2", "Term 3", "Final"]
  const Bands: seq<string> := ["F", "D", "C", "B", "B+", "A", "A+"]

  datatype SubjectMark = SubjectMark(subject: string, marksObtained: int, totalMarks: int)

  /** An exact percentage: `num / den` percent. */
  datatype Ratio = Ratio(num: int, den: int)

  type Percent = r: Ratio | r.den > 0 witness Ratio(0, 1)

  datatype Grade = Grade(
    studentId: string,
    className: string,
    section: string,
    academicYear: string,
    term: string,
    subjects: seq<SubjectMark>,
    totalMarks: Option<int>,
    percentage: Option<Percent>,
    overallGrade: Option<string>)

  type Grades = seq<Store.Doc<Grade>>

  function Obtained(s: SubjectMark): int { s.marksObtained }
  function OutOf(s: SubjectMark): int { s.totalMarks }

  /** `(total / maxTotal) * 100`, or 0 when the maximum is not positive. */
  function Percentage(total: int, maxTotal: int): (p: Percent)
    ensures maxTotal > 0 ==> p.num * maxTotal == 100 * total * p.den
    ensures maxTotal <= 0 ==> p.num == 0
  {
    if maxTotal > 0 then Ratio(100 * total, maxTotal) else Ratio(0, 1)
  }

  /** The percentage is at least `k`. */
  predicate AtLeast(p: Percent, k: int) {
    p.num >= k * p.den
  }

  /** `p` is no greater than `q`. */
  predicate NoGreater(p: Percent, q: Percent) {
    p.num * q.den <= q.num * p.den
  }

  /** The letter band: A+ from 90, A from 80, B+ from 70, B from 60, C from 50, D from 40,
      F below. */
  function Band(p: Percent): (g: string)
    ensures g in Bands
    ensures g == "A+" <==> AtLeast(p, 90)
    ensures g == "A" <==> AtLeast(p, 80) && !AtLeast(p, 90)
    ensures g == "B+" <==> AtLeast(p, 70) && !AtLeast(p, 80)
    ensures g == "B" <==> AtLeast(p, 60) && !AtLeast(p, 70)
    ensures g == "C" <==> AtLeast(p, 50) && !AtLeast(p, 60)
    ensures g == "D" <==> AtLeast(p, 40) && !AtLeast(p, 50)
    ensures g == "F" <==> !AtLeast(p, 40)
  {
    if AtLeast(p, 90) then "A+"
    else if AtLeast(p, 80) then "A"
    else if AtLeast(p, 70) then "B+"
    else if AtLeast(p, 60) then "B"
    else if AtLeast(p, 50) then "C"
    else if AtLeast(p, 40) then "D"
    else "F"
  }

  /** Position of a band from F (0) to A+ (6). */
  function Rank(g: string): nat {
    if g == "A+" then 6 else if g == "A" then 5 else if g == "B+" then 4
    else if g == "B" then 3 else if g == "C" then 2 else if g == "D" then 1 else 0
  }

  /** A percentage that reaches a threshold keeps reaching it when it grows. */
  lemma ThresholdMonotone(p: Percent, q: Percent, k: int)
    requires NoGreater(p, q) && AtLeast(p, k)
    ensures AtLeast(q, k)
  {
    assert p.num * q.den >= k * p.den * q.den by {
      assert p.num - k * p.den >= 0;
      assert (p.num - k * p.den) * q.den >= 0;
    }
    assert p.den * (q.num - k * q.den) >= 0 by {
      assert q.num * p.den >= k * p.den * q.den;
    }
  }

  /** A higher percentage never earns a lower band. */
  lemma BandMonotone(p: Percent, q: Percent)
    requires NoGreater(p, q)
    ensures Rank(Band(p)) <= Rank(Band(q))
  {
    forall k | k in [40, 50, 60, 70, 80, 90] && AtLeast(p, k) ensures AtLeast(q, k) {
      ThresholdMonotone(p, q, k);
    }
  }

  /** The pre-save hook: with at least one subject it sets the total, the percentage and the
      band from the subjects; with none it leaves the card as it was. */
  function PreSave(g: Grade): (r: Grade)
    ensures |g.subjects| == 0 ==> r == g
    ensures r.(totalMarks := g.totalMarks, percentage := g.percentage, overallGrade := g.overallGrade) == g
    ensures |g.subjects| > 0 ==>
      && r.totalMarks == Some(Seqs.Sum(g.subjects, Obtained))
      && r.percentage.Some?
      && var maxTotal := Seqs.Sum(g.subjects, OutOf);
      && (maxTotal > 0 ==> r.percentage.value.num * maxTotal == 100 * Seqs.Sum(g.subjects, Obtained) * r.percentage.value.den)
      && (maxTotal <= 0 ==> r.percentage.value.num == 0 && r.overallGrade == Some("F"))
      && r.overallGrade == Some(Band(r.percentage.value))
  {
    if |g.subjects| == 0 then g
    else
      var total := Seqs.Sum(g.subjects, Obtained);
      var p := Percentage(total, Seqs.Sum(g.subjects, OutOf));
      g.(totalMarks := Some(total), percentage := Some(p), overallGrade := Some(Band(p)))
  }

  /** Full marks in every subject (with a positive maximum) earn an A+. */
  lemma FullMarksEarnTop(g: Grade)
    requires |g.subjects| > 0 && Seqs.Sum(g.subjects, OutOf) > 0
    requires forall i :: 0 <= i < |g.subjects| ==> g.subjects[i].marksObtained == g.subjects[i].totalMarks
    ensures PreSave(g).overallGrade == Some("A+")
  {
    SumsAgree(g.subjects);
  }

  lemma {:induction false} SumsAgree(s: seq<SubjectMark>)
    requires forall i :: 0 <= i < |s| ==> s[i].marksObtained == s[i].totalMarks
    ensures Seqs.Sum(s, Obtained) == Seqs.Sum(s, OutOf)
  {
    if |s| > 0 {
      SumsAgree(s[1..]);
    }
  }

  /** What the schema's validators demand of a card: a student reference that casts to an
      ObjectId, class, section and year present, a term from the enum, and a name on every
      subject. */
  predicate ValidGrade(g: Grade) {
    && Store.IsObjectId(g.studentId)
    && g.className != "" && g.section != "" && g.academicYear != ""
    && g.term in Terms
    && forall i :: 0 <= i < |g.subjects| ==> g.subjects[i].subject != ""
  }

  /** The card as stored: its student reference in canonical form. */
  function Cast(g: Grade): (c: Grade)
    ensures c.studentId == Store.Canon(g.studentId) && c.(studentId := g.studentId) == g
  {
    g.(studentId := Store.Canon(g.studentId))
  }

  /** The compound unique index. */
  function CardKey(g: Grade): (string, string, string) {
    (g.studentId, g.term, g.academicYear)
  }

  /** Saving a new card: the validators must pass, and a second card for the same student
      (in either letter case), term and year is refused by the index. `None` is a refused
      save. */
  function InsertGrade(store: Grades, id: string, g: Grade): (r: Option<Grades>)
    ensures r.Some? <==> ValidGrade(g) && !Store.HasId(store, id) && !Store.Collides(store, id, CardKey, CardKey(Cast(g)))
    ensures r.Some? ==> r.value == Store.Insert(store, id, PreSave(Cast(g)))
    ensures r.Some? && Store.UniqueKey(store, CardKey) ==> Store.UniqueKey(r.value, CardKey)
  {
    var c := Cast(g);
    if !ValidGrade(g) || Store.HasId(store, id) || Store.Collides(store, id, CardKey, CardKey(c)) then None
    else
      Store.InsertKeepsUnique(store, id, PreSave(c), CardKey);
      Some(Store.Insert(store, id, PreSave(c)))
  }

  /** Once a card is saved, a second one for the same term and year is refused even when it
      names the student in another letter case. */
  lemma SecondCardRefused(store: Grades, id: string, g: Grade, id2: string, g2: Grade)
    requires InsertGrade(store, id, g).Some? && id2 != id
    requires Store.Canon(g2.studentId) == Store.Canon(g.studentId)
    requires g2.term == g.term && g2.academicYear == g.academicYear
    ensures InsertGrade(InsertGrade(store, id, g).value, id2, g2).None?
  {
    var r := InsertGrade(store, id, g).value;
    assert r[|store|].id == id && CardKey(r[|store|].body) == CardKey(Cast(g2));
  }
}
