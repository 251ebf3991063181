/** The records of the attendance store (users, courses, attendance records) and the
    pure queries over them: the role-scoped course view, the student roster, the
    lookup of a user by e-mail and of a day's attendance record, and the
    remove-then-append update that marking attendance performs. */
module Domain {
  import opened Collections

  datatype Role = Student | Instructor

  datatype User = User(id: string, name: string, email: string, password: string, role: Role)

  datatype Course = Course(
    id: string,
    name: string,
    code: string,
    description: string,
    instructorId: string,
    schedule: string,
    studentIds: seq<string>)

  /** `timestamp` is the capture time in milliseconds; it orders nothing in the store. */
  datatype AttendanceRecord = AttendanceRecord(
    id: string,
    courseId: string,
    studentId: string,
    date: string,
    isPresent: bool,
    timestamp: int)

  // ---------------------------------------------------------------------------
  // Role names

  /** The enum constant's name, as `toString()` gives it. */
  function RoleName(r: Role): string
  {
    match r
    case Student => "STUDENT"
    case Instructor => "INSTRUCTOR"
  }

  /** The `when` that registration runs on an upper-cased role name; unknown names become STUDENT. */
  function ParseRole(name: string): (r: Role)
    ensures name != "INSTRUCTOR" ==> r == Student
  {
    if name == "STUDENT" then Student
    else if name == "INSTRUCTOR" then Instructor
    else Student
  }

  /** Registration's role conversion gives back the role it was handed. */
  lemma ParseRoleName(r: Role)
    ensures ParseRole(RoleName(r)) == r
  {
  }

  // ---------------------------------------------------------------------------
  // Keys

  function UserId(u: User): string { u.id }
  function UserEmail(u: User): string { u.email }
  function CourseId(c: Course): string { c.id }
  function RecordId(r: AttendanceRecord): string { r.id }

  /** The (course, student, day) triple that identifies a day's attendance. */
  function DayKey(r: AttendanceRecord): (string, string, string)
  {
    (r.courseId, r.studentId, r.date)
  }

  // ---------------------------------------------------------------------------
  // Users

  function HasEmail(email: string): User -> bool
  {
    (u: User) => u.email == email
  }

  /** `users.find { it.email == email }`: exact, case-sensitive comparison, first match. */
  function UserWithEmail(users: seq<User>, email: string): (r: Option<User>)
    ensures r.Some? ==> r.value in users && r.value.email == email
    ensures r.None? <==> forall u :: u in users ==> u.email != email
  {
    Find(users, HasEmail(email))
  }

  /** With unique e-mails the lookup returns exactly the user holding that e-mail. */
  lemma UserWithEmailExactly(users: seq<User>, email: string, u: User)
    requires KeysUnique(users, UserEmail)
    ensures UserWithEmail(users, email) == Some(u) <==> u in users && u.email == email
  {
  }

  function IsStudent(u: User): bool
  {
    u.role == Student
  }

  /** The roster the snapshot exposes: `users.filter { it.role == STUDENT }`. */
  function Students(users: seq<User>): seq<User>
  {
    Filter(users, IsStudent)
  }

  /** The roster is exactly the students, in registration order. */
  lemma StudentsExactly(users: seq<User>)
    ensures forall u :: u in Students(users) <==> u in users && u.role == Student
    ensures IsSubsequence(Students(users), users)
  {
    FilterIsSubsequence(users, IsStudent);
  }

  // ---------------------------------------------------------------------------
  // Courses

  function TaughtBy(id: string): Course -> bool
  {
    (c: Course) => c.instructorId == id
  }

  function Enrolls(id: string): Course -> bool
  {
    (c: Course) => id in c.studentIds
  }

  /** The courses the session user sees: those they teach, those they are enrolled in, or none. */
  function DerivedCourses(session: Option<User>, courses: seq<Course>): seq<Course>
  {
    match session
    case None => []
    case Some(u) =>
      match u.role
      case Instructor => Filter(courses, TaughtBy(u.id))
      case Student => Filter(courses, Enrolls(u.id))
  }

  /** Whether a course belongs to the session user's view. */
  ghost predicate InScope(session: Option<User>, c: Course)
  {
    match session
    case None => false
    case Some(u) =>
      match u.role
      case Instructor => c.instructorId == u.id
      case Student => u.id in c.studentIds
  }

  /** The derived view holds exactly the in-scope courses, in their stored order. */
  lemma DerivedCoursesExactly(session: Option<User>, courses: seq<Course>)
    ensures forall c :: c in DerivedCourses(session, courses) <==> c in courses && InScope(session, c)
    ensures IsSubsequence(DerivedCourses(session, courses), courses)
  {
    match session
    case None => EmptyIsSubsequence(courses);
    case Some(u) =>
      match u.role
      case Instructor => FilterIsSubsequence(courses, TaughtBy(u.id));
      case Student => FilterIsSubsequence(courses, Enrolls(u.id));
  }

  /** A course an instructor creates is appended to that instructor's view. */
  lemma DerivedCoursesAppendOwn(u: User, courses: seq<Course>, c: Course)
    requires u.role == Instructor && c.instructorId == u.id
    ensures DerivedCourses(Some(u), courses + [c]) == DerivedCourses(Some(u), courses) + [c]
  {
    FilterAppend(courses, [c], TaughtBy(u.id));
    assert [c][1..] == [];
  }

  // ---------------------------------------------------------------------------
  // Attendance records

  function OnDay(courseId: string, studentId: string, date: string): AttendanceRecord -> bool
  {
    (r: AttendanceRecord) => DayKey(r) == (courseId, studentId, date)
  }

  function NotOnDay(courseId: string, studentId: string, date: string): AttendanceRecord -> bool
  {
    (r: AttendanceRecord) => DayKey(r) != (courseId, studentId, date)
  }

  /** `attendanceRecords.find { ... }` for one (course, student, day). */
  function RecordFor(records: seq<AttendanceRecord>, courseId: string, studentId: string, date: string)
    : (r: Option<AttendanceRecord>)
    ensures r.Some? ==> r.value in records && DayKey(r.value) == (courseId, studentId, date)
    ensures r.None? <==> forall x :: x in records ==> DayKey(x) != (courseId, studentId, date)
  {
    Find(records, OnDay(courseId, studentId, date))
  }

  /** Marking attendance: `removeAll` of the day's records for the triple, then `add` of the new one. */
  function MarkRecords(records: seq<AttendanceRecord>, id: string, courseId: string, studentId: string,
                       date: string, isPresent: bool, timestamp: int): seq<AttendanceRecord>
  {
    Filter(records, NotOnDay(courseId, studentId, date))
      + [AttendanceRecord(id, courseId, studentId, date, isPresent, timestamp)]
  }

  /** After marking, the triple has exactly one record, the new one, and the lookup finds it. */
  lemma MarkRecordsLastWins(records: seq<AttendanceRecord>, id: string, courseId: string, studentId: string,
                            date: string, isPresent: bool, timestamp: int)
    ensures var rec := AttendanceRecord(id, courseId, studentId, date, isPresent, timestamp);
            var after := MarkRecords(records, id, courseId, studentId, date, isPresent, timestamp);
            Filter(after, OnDay(courseId, studentId, date)) == [rec]
            && RecordFor(after, courseId, studentId, date) == Some(rec)
  {
    var rec := AttendanceRecord(id, courseId, studentId, date, isPresent, timestamp);
    var kept := Filter(records, NotOnDay(courseId, studentId, date));
    FilterAppend(kept, [rec], OnDay(courseId, studentId, date));
    FilterEmpty(kept, OnDay(courseId, studentId, date));
    assert [rec][1..] == [];
  }

  /** Records of every other triple are kept, in the same order. */
  lemma MarkRecordsKeepsOthers(records: seq<AttendanceRecord>, id: string, courseId: string, studentId: string,
                               date: string, isPresent: bool, timestamp: int)
    ensures var after := MarkRecords(records, id, courseId, studentId, date, isPresent, timestamp);
            Filter(after, NotOnDay(courseId, studentId, date)) == Filter(records, NotOnDay(courseId, studentId, date))
  {
    var rec := AttendanceRecord(id, courseId, studentId, date, isPresent, timestamp);
    var others := NotOnDay(courseId, studentId, date);
    var kept := Filter(records, others);
    FilterAppend(kept, [rec], others);
    FilterIdempotent(records, others);
    assert Filter([rec], others) == [];
  }

  /** Marking keeps at most one record per triple and keeps record ids unique when the new id is fresh. */
  lemma MarkRecordsKeepsKeysUnique(records: seq<AttendanceRecord>, id: string, courseId: string, studentId: string,
                                   date: string, isPresent: bool, timestamp: int)
    requires KeysUnique(records, DayKey)
    requires KeysUnique(records, RecordId)
    requires forall r :: r in records ==> r.id != id
    ensures var after := MarkRecords(records, id, courseId, studentId, date, isPresent, timestamp);
            KeysUnique(after, DayKey) && KeysUnique(after, RecordId)
  {
    var rec := AttendanceRecord(id, courseId, studentId, date, isPresent, timestamp);
    var kept := Filter(records, NotOnDay(courseId, studentId, date));
    FilterKeepsKeysUnique(records, NotOnDay(courseId, studentId, date), DayKey);
    FilterKeepsKeysUnique(records, NotOnDay(courseId, studentId, date), RecordId);
    AppendKeepsKeysUnique(kept, rec, DayKey);
    AppendKeepsKeysUnique(kept, rec, RecordId);
  }

  /** With one record per triple, no triple ever has two records. */
  lemma AtMostOnePerDay(records: seq<AttendanceRecord>, courseId: string, studentId: string, date: string)
    requires KeysUnique(records, DayKey)
    ensures |Filter(records, OnDay(courseId, studentId, date))| <= 1
  {
    var f := Filter(records, OnDay(courseId, studentId, date));
    if |f| > 1 {
      assert f[0] in f && f[1] in f;
      AtMostOneWithKey(records, DayKey, (courseId, studentId, date), f[0], f[1]);
      FilterKeepsKeysUnique(records, OnDay(courseId, studentId, date), DayKey);
      assert false;
    }
  }
}
