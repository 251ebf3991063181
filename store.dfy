/** The in-memory attendance store: three record lists, the published UI snapshot,
    and the operations (login, registration, logout, course creation, attendance
    marking, message clearing, today's lookup) that change them. */
module Store {
  import opened Collections
  import opened Domain

  // Messages published in the snapshot.
  const FillAllFields: string := "Please fill in all fields"
  const EmailExists: string := "Email already exists"
  const InvalidCredentials: string := "Invalid credentials"
  const LoginSuccessful: string := "Login successful"
  const RegistrationSuccessful: string := "Registration successful! Please login with your credentials."
  const CourseAdded: string := "Course added successfully"
  const MarkedPresent: string := "Marked as Present"
  const MarkedAbsent: string := "Marked as Absent"

  /** The password every registered user is stored with, whatever was typed. */
  const DefaultPassword: string := "defaultPassword"

  /** The immutable snapshot observers read; the store replaces it as a whole. */
  datatype UiState = UiState(
    currentUser: Option<User>,
    courses: seq<Course>,
    attendanceRecords: seq<AttendanceRecord>,
    students: seq<User>,
    isLoading: bool,
    error: Option<string>,
    success: Option<string>)

  const EmptyUiState: UiState := UiState(None, [], [], [], false, None, None)

  const SampleUsers: seq<User> := [
    User("1", "Dr. Smith", "smith@university.edu", "somePassword", Instructor),
    User("2", "John Doe", "john@student.edu", "somePassword", Student),
    User("3", "Jane Wilson", "jane@student.edu", "somePassword", Student)
  ]

  const SampleCourses: seq<Course> := [
    Course("1", "Computer Science 101", "CS101", "Introduction to Programming", "1", "MWF 10:00-11:00", ["2", "3"]),
    Course("2", "Data Structures", "CS201", "Advanced Data Structures", "1", "TTh 2:00-3:30", ["2"])
  ]

  class AttendanceViewModel {
    var uiState: UiState
    // The mock database.
    var users: seq<User>
    var courses: seq<Course>
    var attendanceRecords: seq<AttendanceRecord>

    /** What holds of the three lists and the session between and inside operations. */
    ghost predicate Consistent()
      reads this
    {
      && KeysUnique(users, UserId)
      && KeysUnique(users, UserEmail)
      && KeysUnique(courses, CourseId)
      && KeysUnique(attendanceRecords, RecordId)
      && KeysUnique(attendanceRecords, DayKey)
      && (uiState.currentUser.Some? ==> uiState.currentUser.value in users)
      && (users == [] ==> courses == [] && attendanceRecords == [])
    }

    /** What holds between operations: the snapshot's roster and records are current,
        and so is its course view while someone is logged in (logout leaves it stale). */
    ghost predicate Valid()
      reads this
    {
      && Consistent()
      && uiState.attendanceRecords == attendanceRecords
      && uiState.students == Students(users)
      && (uiState.currentUser.Some? ==> uiState.courses == DerivedCourses(uiState.currentUser, courses))
    }

    /** `init`: an empty snapshot, then the sample data. */
    constructor ()
      ensures Valid()
      ensures users == SampleUsers && courses == SampleCourses && attendanceRecords == []
      ensures uiState == UiState(None, [], [], Students(SampleUsers), false, None, None)
    {
      uiState := EmptyUiState;
      users := [];
      courses := [];
      attendanceRecords := [];
      new;
      InitializeSampleData();
    }

    /** `initializeSampleData`: `addAll` of the sample users and courses, then a view refresh. */
    method InitializeSampleData()
      requires Consistent() && users == []
      modifies this
      ensures Valid()
      ensures users == SampleUsers && courses == SampleCourses && attendanceRecords == []
      ensures uiState == old(uiState).(courses := [], attendanceRecords := [], students := Students(SampleUsers))
    {
      users := users + SampleUsers;
      courses := courses + SampleCourses;
      UpdateUiState();
    }

    /** `updateUiState`: recompute the course view for the session, republish records and roster. */
    method UpdateUiState()
      requires Consistent()
      modifies this
      ensures Valid()
      ensures users == old(users) && courses == old(courses) && attendanceRecords == old(attendanceRecords)
      ensures uiState == old(uiState).(courses := DerivedCourses(old(uiState.currentUser), courses),
                                       attendanceRecords := attendanceRecords,
                                       students := Students(users))
    {
      uiState := uiState.(courses := DerivedCourses(uiState.currentUser, courses),
                          attendanceRecords := attendanceRecords,
                          students := Students(users));
    }

    /** `login`: the password is only checked for being non-empty; the first user with
        the e-mail becomes the session user. */
    method Login(email: string, password: string, showSuccessMessage: bool)
      requires Valid()
      modifies this
      ensures Valid()
      ensures users == old(users) && courses == old(courses) && attendanceRecords == old(attendanceRecords)
      ensures email == [] || password == [] ==>
                uiState == old(uiState).(error := Some(FillAllFields))
      ensures email != [] && password != [] && UserWithEmail(users, email).None? ==>
                uiState == old(uiState).(error := Some(InvalidCredentials))
      ensures email != [] && password != [] && UserWithEmail(users, email).Some? ==>
                uiState == old(uiState).(currentUser := UserWithEmail(users, email),
                                         courses := DerivedCourses(UserWithEmail(users, email), courses),
                                         error := None,
                                         success := if showSuccessMessage then Some(LoginSuccessful) else None)
    {
      if email == [] || password == [] {
        uiState := uiState.(error := Some(FillAllFields));
        return;
      }
      var user := UserWithEmail(users, email);
      if user.Some? {
        uiState := uiState.(currentUser := user,
                            error := None,
                            success := if showSuccessMessage then Some(LoginSuccessful) else None);
        UpdateUiState();
      } else {
        uiState := uiState.(error := Some(InvalidCredentials));
      }
    }

    /** `register`: validation, the duplicate check, then an append of the new user; the
        session is cleared, never started. */
    method Register(name: string, email: string, password: string, role: Role, freshId: string)
      requires Valid()
      requires forall u :: u in users ==> u.id != freshId
      modifies this
      ensures Valid()
      ensures courses == old(courses) && attendanceRecords == old(attendanceRecords)
      ensures name == [] || email == [] || password == [] ==>
                users == old(users) && uiState == old(uiState).(error := Some(FillAllFields))
      ensures name != [] && email != [] && password != [] && UserWithEmail(old(users), email).Some? ==>
                users == old(users) && uiState == old(uiState).(error := Some(EmailExists))
      ensures name != [] && email != [] && password != [] && UserWithEmail(old(users), email).None? ==>
                && users == old(users) + [User(freshId, name, email, DefaultPassword, role)]
                && uiState == old(uiState).(currentUser := None,
                                            courses := [],
                                            students := Students(users),
                                            error := None,
                                            success := Some(RegistrationSuccessful))
    {
      if name == [] || email == [] || password == [] {
        uiState := uiState.(error := Some(FillAllFields));
        return;
      }
      if UserWithEmail(users, email).Some? {
        uiState := uiState.(error := Some(EmailExists));
        return;
      }
      ParseRoleName(role);
      var newUser := User(freshId, name, email, DefaultPassword, ParseRole(RoleName(role)));
      AppendKeepsKeysUnique(users, newUser, UserId);
      AppendKeepsKeysUnique(users, newUser, UserEmail);
      users := users + [newUser];
      uiState := uiState.(currentUser := None, error := None, success := Some(RegistrationSuccessful));
      UpdateUiState();
    }

    /** `logout`: only the session is cleared; the course view is not recomputed. */
    method Logout()
      requires Valid()
      modifies this
      ensures Valid()
      ensures users == old(users) && courses == old(courses) && attendanceRecords == old(attendanceRecords)
      ensures uiState == old(uiState).(currentUser := None)
    {
      uiState := uiState.(currentUser := None);
    }

    /** `addCourse`: silently ignored unless an instructor is logged in; no field is validated. */
    method AddCourse(name: string, code: string, description: string, schedule: string, freshId: string)
      requires Valid()
      requires forall c :: c in courses ==> c.id != freshId
      modifies this
      ensures Valid()
      ensures users == old(users) && attendanceRecords == old(attendanceRecords)
      ensures old(uiState.currentUser).None? || old(uiState.currentUser).value.role != Instructor ==>
                courses == old(courses) && uiState == old(uiState)
      ensures old(uiState.currentUser).Some? && old(uiState.currentUser).value.role == Instructor ==>
                var created := Course(freshId, name, code, description, old(uiState.currentUser).value.id, schedule, []);
                && courses == old(courses) + [created]
                && uiState == old(uiState).(courses := old(uiState.courses) + [created],
                                            success := Some(CourseAdded))
    {
      if uiState.currentUser.None? { return; }
      var currentUser := uiState.currentUser.value;
      if currentUser.role != Instructor { return; }
      var newCourse := Course(freshId, name, code, description, currentUser.id, schedule, []);
      AppendKeepsKeysUnique(courses, newCourse, CourseId);
      DerivedCoursesAppendOwn(currentUser, courses, newCourse);
      courses := courses + [newCourse];
      UpdateUiState();
      uiState := uiState.(success := Some(CourseAdded));
    }

    /** `markAttendance`: silently ignored unless a student is logged in; otherwise the
        day's record for (course, student, today) is replaced by a new one. `today`,
        `freshId` and `now` stand for the formatted local date, a random UUID and the clock. */
    method MarkAttendance(courseId: string, isPresent: bool, today: string, freshId: string, now: int)
      requires Valid()
      requires forall r :: r in attendanceRecords ==> r.id != freshId
      modifies this
      ensures Valid()
      ensures users == old(users) && courses == old(courses)
      ensures old(uiState.currentUser).None? || old(uiState.currentUser).value.role != Student ==>
                attendanceRecords == old(attendanceRecords) && uiState == old(uiState)
      ensures old(uiState.currentUser).Some? && old(uiState.currentUser).value.role == Student ==>
                var student := old(uiState.currentUser).value;
                && attendanceRecords == MarkRecords(old(attendanceRecords), freshId, courseId, student.id, today, isPresent, now)
                && TodayAttendance(courseId, student.id, today)
                     == Some(AttendanceRecord(freshId, courseId, student.id, today, isPresent, now))
                && uiState == old(uiState).(attendanceRecords := attendanceRecords,
                                            success := Some(if isPresent then MarkedPresent else MarkedAbsent))
    {
      if uiState.currentUser.None? { return; }
      var currentUser := uiState.currentUser.value;
      if currentUser.role != Student { return; }
      MarkRecordsKeepsKeysUnique(attendanceRecords, freshId, courseId, currentUser.id, today, isPresent, now);
      MarkRecordsLastWins(attendanceRecords, freshId, courseId, currentUser.id, today, isPresent, now);
      attendanceRecords := MarkRecords(attendanceRecords, freshId, courseId, currentUser.id, today, isPresent, now);
      UpdateUiState();
      uiState := uiState.(success := Some(if isPresent then MarkedPresent else MarkedAbsent));
    }

    /** `clearMessages`. */
    method ClearMessages()
      requires Valid()
      modifies this
      ensures Valid()
      ensures users == old(users) && courses == old(courses) && attendanceRecords == old(attendanceRecords)
      ensures uiState == old(uiState).(error := None, success := None)
    {
      uiState := uiState.(error := None, success := None);
    }

    /** `getTodayAttendance`, with the day passed in: the record of that student in that
        course for that day, which is the only one while the store is valid. */
    function TodayAttendance(courseId: string, studentId: string, today: string): (r: Option<AttendanceRecord>)
      reads this
      ensures r.Some? ==> r.value in attendanceRecords && DayKey(r.value) == (courseId, studentId, today)
      ensures r.None? <==> forall x :: x in attendanceRecords ==> DayKey(x) != (courseId, studentId, today)
    {
      RecordFor(attendanceRecords, courseId, studentId, today)
    }
  }
}
