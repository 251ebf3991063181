# Attendance store, modelled in Dafny

This project models the in-memory domain store of a university attendance app.
In the app, that store is the `AttendanceViewModel` class in `MainActivity.kt`.
It holds three lists: users, courses and attendance records. It also publishes
an immutable UI snapshot (`AttendanceUiState`) holding:

- the session user;
- the role-scoped course view;
- the attendance records;
- the student roster;
- an error message and a success message.

Callers change the store only through its operations: login, registration,
logout, course creation, attendance marking and message clearing. They can
also look up today's attendance record for a course and a student. The
model also covers the attendance summary on the attendance screen: the present
and absent counts and the whole-number percentage.

Modules:

- `Collections` (collections.dfy): the Kotlin collection operations the store
  uses, stated once. `filter` (and `removeAll`, which is a filter with the
  negated predicate) is `Filter`; `find` and `any` are `Find`. `KeysUnique`
  says that no two elements of a list share a key.
- `Domain` (domain.dfy): the records and the pure queries over them. These are
  the role-scoped course view (`DerivedCourses`), the roster (`Students`), the
  e-mail lookup (`UserWithEmail`), the lookup of a day's record (`RecordFor`) and
  the remove-then-append that marking performs (`MarkRecords`).
- `Store` (store.dfy): the class `AttendanceViewModel`. Its fields are the three
  lists and `uiState`. `uiState` is a datatype value that every operation
  replaces with a datatype update, `uiState.(error := …)`, as the source does
  with `copy(...)`. Each method states the whole new state. The invariant
  `Valid()` holds between operations. It requires:
  - unique user ids;
  - unique e-mails;
  - unique course ids;
  - unique record ids;
  - at most one record per (course, student, day);
  - a session user who is one of the users;
  - a snapshot whose records and roster are current, and whose course view is
    current while someone is logged in.
- `Summary` (summary.dfy): the present count, absent count and percentage for one
  course and viewer.
- `Scenario` (scenario.dfy): clients that chain operations and prove the
  combined outcome from the operations' contracts alone. One of them runs a
  whole day on the sample data.

Behaviour modelled as the code has it, some of it surprising:

- `login` never compares the password with the stored one. It only requires it
  to be non-empty, so any non-empty password logs in a known e-mail.
- `register` stores the literal password `"defaultPassword"`, not the argument.
  It also clears an existing session (it sets `currentUser` to null), and it
  recomputes the views, which empties the course view.
- `logout` does not recompute the views, so the course view keeps its old value
  until the next login or successful registration. This is why `Valid()`
  requires the course view to be current only while someone is logged in.
- Error paths change only `error`: a previous `success` message stays.
- `addCourse` and `markAttendance` do nothing and set no message when there is
  no session or the role is wrong. Neither checks enrolment or validates fields.

Values the source draws from its environment are method parameters:

- A random UUID becomes `freshId`. A precondition says that no user, course or
  record already has it.
- The `yyyy-MM-dd` local date becomes `today`.
- `System.currentTimeMillis()` becomes `now`.

## Model

| member | source | states |
|---|---|---|
| Collections.Filter | app/src/main/java/com/example/attendence/MainActivity.kt:428-441 | `filter` keeps exactly the elements that satisfy the predicate, and never lengthens the list |
| Collections.FilterIsSubsequence | app/src/main/java/com/example/attendence/MainActivity.kt:428-441 | filtering keeps the source order: the result is a subsequence of the input |
| Collections.FilterOccurrences | app/src/main/java/com/example/attendence/MainActivity.kt:439 | filtering keeps every occurrence of a kept element and none of a dropped one |
| Collections.FilterKeepsKeysUnique | app/src/main/java/com/example/attendence/MainActivity.kt:412-414 | `removeAll` (a filter) cannot create two elements with the same key |
| Collections.Find | app/src/main/java/com/example/attendence/MainActivity.kt:302 | `find` returns null exactly when no element matches; otherwise it returns the first matching element |
| Domain.ParseRole | app/src/main/java/com/example/attendence/MainActivity.kt:339-343 | the role `when` falls back to STUDENT for every name other than INSTRUCTOR |
| Domain.ParseRoleName | app/src/main/java/com/example/attendence/MainActivity.kt:339-343 | converting a role to its name and back gives the same role, so registration keeps the requested role |
| Domain.UserWithEmail | app/src/main/java/com/example/attendence/MainActivity.kt:302 | the e-mail lookup finds a user with exactly that e-mail (case-sensitive), and finds none only when no user has it |
| Domain.UserWithEmailExactly | app/src/main/java/com/example/attendence/MainActivity.kt:329-332 | when e-mails are unique, the lookup returns a user if and only if that user is stored with that e-mail |
| Domain.StudentsExactly | app/src/main/java/com/example/attendence/MainActivity.kt:439 | the roster holds exactly the users whose role is STUDENT, in stored order |
| Domain.DerivedCoursesExactly | app/src/main/java/com/example/attendence/MainActivity.kt:429-434 | the course view holds exactly the in-scope courses, in stored order: an instructor sees the courses they teach; a student sees the courses that list them; with no session the view is empty |
| Domain.DerivedCoursesAppendOwn | app/src/main/java/com/example/attendence/MainActivity.kt:392-402 | a course an instructor creates appears at the end of that instructor's view, after the courses already there |
| Domain.RecordFor | app/src/main/java/com/example/attendence/MainActivity.kt:447-452 | the lookup returns a record for that course, student and day, and returns null only when none exists |
| Domain.MarkRecordsLastWins | app/src/main/java/com/example/attendence/MainActivity.kt:411-421 | after marking, the (course, student, day) triple has exactly one record, the new one, and the lookup returns it |
| Domain.MarkRecordsKeepsOthers | app/src/main/java/com/example/attendence/MainActivity.kt:411-421 | marking leaves the records of every other triple unchanged and in the same order |
| Domain.MarkRecordsKeepsKeysUnique | app/src/main/java/com/example/attendence/MainActivity.kt:411-421 | marking keeps at most one record per triple, and keeps record ids unique when the new id is fresh |
| Domain.AtMostOnePerDay | app/src/main/java/com/example/attendence/MainActivity.kt:411-421 | with one record per triple, filtering on a triple yields at most one record |
| Store.AttendanceViewModel.constructor | app/src/main/java/com/example/attendence/MainActivity.kt:143-146 | a new store holds the sample users and courses, no records and no session, with the roster published |
| Store.AttendanceViewModel.InitializeSampleData | app/src/main/java/com/example/attendence/MainActivity.kt:148-164 | `addAll` of the three sample users and two sample courses, then a view refresh; the sample ids and e-mails are distinct |
| Store.AttendanceViewModel.UpdateUiState | app/src/main/java/com/example/attendence/MainActivity.kt:428-441 | the snapshot gets the session's course view, the full record list and the student roster; nothing else changes |
| Store.AttendanceViewModel.Login | app/src/main/java/com/example/attendence/MainActivity.kt:296-320 | empty e-mail or password: only `error` is set to the fill-in message. Known e-mail: whatever the password, the first user with it becomes the session, `error` is cleared, `success` depends on `showSuccessMessage` and the view is recomputed. Unknown e-mail: only `error` is set to "Invalid credentials". The lists never change |
| Store.AttendanceViewModel.Register | app/src/main/java/com/example/attendence/MainActivity.kt:323-354 | an empty field or a taken e-mail sets only the matching `error` and leaves the users unchanged. Otherwise exactly one user is appended (the given name, e-mail and role, a fresh id, password "defaultPassword"); the session is cleared, `error` is cleared, `success` is set and the views are refreshed. E-mails stay unique |
| Store.AttendanceViewModel.Logout | app/src/main/java/com/example/attendence/MainActivity.kt:356-362 | only the session is cleared: the lists, messages and the stale course view stay |
| Store.AttendanceViewModel.AddCourse | app/src/main/java/com/example/attendence/MainActivity.kt:392-403 | with no session or a non-instructor session, nothing changes. Otherwise exactly one course is appended (the instructor's id, no students), the view gains it at the end and `success` is set; existing courses are untouched |
| Store.AttendanceViewModel.MarkAttendance | app/src/main/java/com/example/attendence/MainActivity.kt:405-426 | with no session or a non-student session, nothing changes. Otherwise the day's record for (course, session user, today) is replaced by the new one, which the day's lookup then returns. `success` says present or absent |
| Store.AttendanceViewModel.ClearMessages | app/src/main/java/com/example/attendence/MainActivity.kt:443-445 | only `error` and `success` are cleared |
| Store.AttendanceViewModel.TodayAttendance | app/src/main/java/com/example/attendence/MainActivity.kt:447-452 | returns a stored record for that course, student and day, and returns null only when none exists |
| Summary.Percentage | app/src/main/java/com/example/attendence/MainActivity.kt:1068 | 0 with no sessions; otherwise the integer part of 100 * present / total |
| Summary.PercentageBounds | app/src/main/java/com/example/attendence/MainActivity.kt:1068 | the percentage lies in 0..100, and it is 100 exactly when every session was attended |
| Summary.Summarize | app/src/main/java/com/example/attendence/MainActivity.kt:1062-1068 | present + absent is the number of the viewer's records in the course; absent is never negative; the percentage is `Percentage(present, total)` and at most 100 |
| Scenario.RegisterThenLogin | app/src/main/java/com/example/attendence/MainActivity.kt:296-354 | registering leaves nobody logged in, and logging in right after with any non-empty password makes the new user the session |
| Scenario.InstructorCreatesCourse | app/src/main/java/com/example/attendence/MainActivity.kt:392-403 | an instructor's new course ends their course view |
| Scenario.StudentMarksTwice | app/src/main/java/com/example/attendence/MainActivity.kt:405-426 | marking a course present and then absent on one day leaves exactly one record for that day, the absent one |
| Scenario.OneDay | app/src/main/java/com/example/attendence/MainActivity.kt:143-146 | starting from a new store holding the sample data, the whole day ends with B's record for Algorithms that day saying absent |
| Scenario.InstructorOpensAlgorithms | app/src/main/java/com/example/attendence/MainActivity.kt:148-164 | on the sample data, a newly registered instructor who creates a course sees exactly that course |
| Scenario.StudentMarksAlgorithms | app/src/main/java/com/example/attendence/MainActivity.kt:405-426 | on that state, a newly registered student who marks present and then absent has the absent record as the day's record |

## Left out

- Saved credentials are left out, because they are platform key-value storage I/O.
  This covers `saveCredentials`, `clearCredentials`, `getSavedCredentials`,
  `clearStoredCredentials`, `autoLogin` and `autoLoginAlternative`
  (MainActivity.kt:166-294, 364-390). The `rememberMe` and `context` parameters
  of `login` and `logout` only drive that storage, so the model drops them.
- `navigateToMainScreen` and the delayed `Handler` call are left out: they are
  Android navigation and timers. All `Log` calls are left out too.
- The Compose screens and cards are left out, as presentation. This includes the
  colour thresholds on the percentage and the 3-second automatic clearing of
  messages. The only part of the screens modelled is the percentage arithmetic.
- The Firebase-backed variant is left out because its outcomes depend entirely
  on a remote service. It lives in `auth/AuthManager.kt`, `auth/AuthviewModel.kt`,
  `auth/Authview.kt` and `ui/theme/AuthScreen.kt`.
- `UUID.randomUUID()`, the formatted local date and `System.currentTimeMillis()`
  are not modelled. They are parameters, and fresh ids are preconditions.
- Observers of the `StateFlow` are not modelled. The model keeps the latest
  snapshot but not the stream of emissions. `isLoading` is carried but never
  set, as in the source.
- Aliasing is not modelled. In the source, the snapshot's `attendanceRecords` is
  the store's own mutable list, not a copy. The model copies the value. The two
  agree at the end of every operation, because every change to the list is
  followed by `updateUiState`.
- Kotlin's `uppercase()` on the role name is not modelled. It is the identity on
  the enum names `STUDENT` and `INSTRUCTOR`.
- Summary.Percentage: does not model 32-bit `Int` overflow of
  `presentCount * 100`. That overflow needs more than 21 million records for one
  student in one course.
