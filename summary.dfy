/** The attendance summary shown for one course: how many of the viewer's records in
    that course are present, how many absent, and the whole-number percentage. */
module Summary {
  import opened Collections
  import opened Domain

  datatype CourseSummary = CourseSummary(present: nat, absent: int, percentage: nat)

  /** The viewer's records in the course; a missing viewer id matches no record. */
  function ForCourseAndViewer(courseId: string, viewerId: Option<string>): AttendanceRecord -> bool
  {
    (r: AttendanceRecord) => r.courseId == courseId && viewerId == Some(r.studentId)
  }

  function IsPresent(r: AttendanceRecord): bool
  {
    r.isPresent
  }

  /** `(present * 100) / total` when there is at least one session, 0 otherwise; integer
      division on non-negative operands truncates toward zero in Kotlin too. */
  function Percentage(present: nat, total: nat): (p: nat)
    ensures total == 0 ==> p == 0
    ensures total > 0 ==> p * total <= present * 100 < (p + 1) * total
  {
    if total > 0 then (present * 100) / total else 0
  }

  /** A share of the sessions is a percentage between 0 and 100, reaching 100 exactly when every
      session was attended. */
  lemma PercentageBounds(present: nat, total: nat)
    requires present <= total
    ensures Percentage(present, total) <= 100
    ensures total > 0 ==> (Percentage(present, total) == 100 <==> present == total)
  {
    var p := Percentage(present, total);
    if total > 0 {
      if present < total {
        assert present * 100 <= total * 100 - 100;
        assert p * total < 100 * total;
      }
    }
  }

  /** The counts and percentage `AttendanceDetailCard` shows for `course`. */
  function Summarize(records: seq<AttendanceRecord>, courseId: string, viewerId: Option<string>): (s: CourseSummary)
    ensures var mine := Filter(records, ForCourseAndViewer(courseId, viewerId));
            && s.present + s.absent == |mine|
            && s.present == |Filter(mine, IsPresent)|
            && 0 <= s.absent
            && s.percentage == Percentage(s.present, |mine|)
            && s.percentage <= 100
  {
    var mine := Filter(records, ForCourseAndViewer(courseId, viewerId));
    var presentCount := |Filter(mine, IsPresent)|;
    var totalSessions := |mine|;
    PercentageBounds(presentCount, totalSessions);
    CourseSummary(presentCount, totalSessions - presentCount, Percentage(presentCount, totalSessions))
  }
}
