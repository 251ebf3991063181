/** Clients of the store that string operations together, each proved from the
    operations' contracts alone: registering and then logging in, an instructor
    creating a course, a student marking the same day twice, and one day of use that
    chains them on the sample data. */
module Scenario {
  import opened Collections
  import opened Domain
  import opened Store

  /** Registration does not log in, but logging in right after it does, whatever password is typed. */
  method RegisterThenLogin(store: AttendanceViewModel, name: string, email: string, password: string,
                           typed: string, role: Role, freshId: string)
    requires store.Valid()
    requires name != [] && email != [] && password != [] && typed != []
    requires UserWithEmail(store.users, email).None?
    requires forall u :: u in store.users ==> u.id != freshId
    modifies store
    ensures store.Valid()
    ensures store.users == old(store.users) + [User(freshId, name, email, DefaultPassword, role)]
    ensures store.courses == old(store.courses) && store.attendanceRecords == old(store.attendanceRecords)
    ensures store.uiState.currentUser == Some(User(freshId, name, email, DefaultPassword, role))
  {
    var user := User(freshId, name, email, DefaultPassword, role);
    store.Register(name, email, password, role, freshId);
    assert store.uiState.currentUser == None;
    UserWithEmailExactly(store.users, email, user);
    store.Login(email, typed, true);
  }

  /** An instructor's new course shows up at the end of the instructor's course view. */
  method InstructorCreatesCourse(store: AttendanceViewModel, name: string, code: string, description: string,
                                 schedule: string, freshId: string)
    requires store.Valid()
    requires store.uiState.currentUser.Some? && store.uiState.currentUser.value.role == Instructor
    requires forall c :: c in store.courses ==> c.id != freshId
    modifies store
    ensures store.Valid()
    ensures store.users == old(store.users) && store.attendanceRecords == old(store.attendanceRecords)
    ensures var me := old(store.uiState.currentUser).value;
            store.uiState.courses == DerivedCourses(Some(me), old(store.courses)) + [Course(freshId, name, code, description, me.id, schedule, [])]
  {
    store.AddCourse(name, code, description, schedule, freshId);
  }

  /** Marking the same course twice on one day leaves one record for the day, the second. */
  method StudentMarksTwice(store: AttendanceViewModel, courseId: string, today: string, first: string, second: string, now: int)
    requires store.Valid()
    requires store.uiState.currentUser.Some? && store.uiState.currentUser.value.role == Student
    requires first != second
    requires forall r :: r in store.attendanceRecords ==> r.id != first && r.id != second
    modifies store
    ensures store.Valid()
    ensures var me := old(store.uiState.currentUser).value;
            var last := AttendanceRecord(second, courseId, me.id, today, false, now);
            && Filter(store.attendanceRecords, OnDay(courseId, me.id, today)) == [last]
            && store.TodayAttendance(courseId, me.id, today) == Some(last)
  {
    var me := store.uiState.currentUser.value;
    store.MarkAttendance(courseId, true, today, first, now);
    var between := store.attendanceRecords;
    store.MarkAttendance(courseId, false, today, second, now);
    MarkRecordsLastWins(between, second, courseId, me.id, today, false, now);
  }

  /** On the sample data: Dr. A registers, logs in and creates Algorithms; B registers,
      logs in and marks Algorithms present, then absent. The store is returned so that
      the day's outcome can be stated. */
  method OneDay(today: string, now: int) returns (store: AttendanceViewModel)
    ensures store.TodayAttendance("c-1", "u-b", today) == Some(AttendanceRecord("r-2", "c-1", "u-b", today, false, now))
  {
    store := new AttendanceViewModel();
    InstructorOpensAlgorithms(store);
    StudentMarksAlgorithms(store, today, now);
  }

  /** Dr. A registers, logs in and creates Algorithms, which is then the only course in the view. */
  method InstructorOpensAlgorithms(store: AttendanceViewModel)
    requires store.Valid()
    requires store.users == SampleUsers && store.courses == SampleCourses && store.attendanceRecords == []
    modifies store
    ensures store.Valid()
    ensures store.users == SampleUsers + [User("u-a", "Dr. A", "a@u.edu", DefaultPassword, Instructor)]
    ensures store.attendanceRecords == []
    ensures store.uiState.courses == [Course("c-1", "Algorithms", "CS301", "", "u-a", "MWF 9-10", [])]
  {
    RegisterThenLogin(store, "Dr. A", "a@u.edu", "pw1", "pw1", Instructor, "u-a");
    assert forall c :: c in store.courses ==> c.id != "c-1";
    InstructorCreatesCourse(store, "Algorithms", "CS301", "", "MWF 9-10", "c-1");
    assert !TaughtBy("u-a")(SampleCourses[0]) && !TaughtBy("u-a")(SampleCourses[1]);
    FilterEmpty(SampleCourses, TaughtBy("u-a"));
  }

  /** B registers, logs in and marks Algorithms present, then absent: the day's record says absent. */
  method StudentMarksAlgorithms(store: AttendanceViewModel, today: string, now: int)
    requires store.Valid()
    requires store.users == SampleUsers + [User("u-a", "Dr. A", "a@u.edu", DefaultPassword, Instructor)]
    requires store.attendanceRecords == []
    modifies store
    ensures store.TodayAttendance("c-1", "u-b", today) == Some(AttendanceRecord("r-2", "c-1", "u-b", today, false, now))
  {
    SecondNewcomerIsNew(store.users);
    RegisterThenLogin(store, "B", "b@u.edu", "pw2", "pw2", Student, "u-b");
    StudentMarksTwice(store, "c-1", today, "r-1", "r-2", now);
  }

  /** B's e-mail and id are not among the sample users and Dr. A. */
  lemma SecondNewcomerIsNew(users: seq<User>)
    requires users == SampleUsers + [User("u-a", "Dr. A", "a@u.edu", DefaultPassword, Instructor)]
    ensures UserWithEmail(users, "b@u.edu").None?
    ensures forall u :: u in users ==> u.id != "u-b"
  {
  }
}
