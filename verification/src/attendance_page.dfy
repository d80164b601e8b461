/** The per-session figures of the admin console's attendance page. */
module AttendancePage {

  import opened Wrappers
  import Seqs
  import Attendance

  datatype Stats = Stats(total: nat, present: nat, absent: nat, late: nat)

  /** `getAttendanceStats`: missing records count as none; each status is matched exactly. */
  function SessionStats(records: Option<seq<Attendance.Record>>): (s: Stats)
    ensures records.None? ==> s == Stats(0, 0, 0, 0)
    ensures records.Some? ==>
      && s.total == |records.value|
      && s.present == |Seqs.Filter(records.value, Attendance.IsPresent)|
      && s.absent == |Seqs.Filter(records.value, Attendance.IsAbsent)|
      && s.late == |Seqs.Filter(records.value, Attendance.IsLate)|
    ensures s.present + s.absent + s.late <= s.total
  {
    match records
    case None => Stats(0, 0, 0, 0)
    case Some(recs) =>
      Seqs.CountPartition(recs, Attendance.IsPresent, Attendance.IsAbsent, Attendance.IsLate);
      Stats(|recs|, Seqs.Count(recs, Attendance.IsPresent), Seqs.Count(recs, Attendance.IsAbsent),
            Seqs.Count(recs, Attendance.IsLate))
  }

  /** The page's figures agree with the server's counts for the same session. */
  lemma StatsMatchServer(s: Attendance.Session)
    ensures SessionStats(Some(s.records)) ==
      Stats(Attendance.TotalStudents(s), Attendance.PresentCount(s), Attendance.AbsentCount(s), Attendance.LateCount(s))
  {
  }

  /** A percentage as an exact fraction `num / den`. */
  datatype Percent = Percent(num: int, den: int)

  /** The attendance rate: present over total, in percent; 0 for a session with no records. */
  function Rate(s: Stats): (p: Percent)
    requires s.present <= s.total
    ensures p.den > 0 && 0 <= p.num <= 100 * p.den
    ensures s.total == 0 ==> p.num == 0
    ensures s.total > 0 ==> p.num * s.total == 100 * s.present * p.den
    ensures s.total > 0 && s.present == s.total ==> p.num == 100 * p.den
  {
    if s.total > 0 then Percent(100 * s.present, s.total) else Percent(0, 1)
  }
}
