/** The account views: registration, which saves the user and then creates
    the matching Student or Teacher profile, and the dashboard, which looks
    the caller's profile up. */
module AccountsViews {
  import opened Common
  import opened Text
  import opened Tables
  import opened AccountsModels
  import opened SchoolModels
  import opened AccountsForms
  import opened GetOrCreate

  // ---------------------------------------------------------------- profile synthesis

  const StudentPrefix := "STU"
  const TeacherPrefix := "TCH"

  /** `prefix + ''.join(digits)`: the profile id the view generates, `STU`
      for a student and `TCH` for a teacher; the six random digits are an input. */
  function GeneratedId(prefix: string, digits: string): (r: string)
    ensures |r| == |prefix| + |digits| && r[..|prefix|] == prefix && r[|prefix|..] == digits
  {
    prefix + digits
  }

  /** Generated student and teacher ids never coincide, whatever the digits. */
  lemma GeneratedIdsDisjoint(d1: string, d2: string)
    ensures GeneratedId(StudentPrefix, d1) != GeneratedId(TeacherPrefix, d2)
  {
    assert GeneratedId(StudentPrefix, d1)[0] != GeneratedId(TeacherPrefix, d2)[0];
  }

  /** Python's `text or default` on a string. */
  function OrText(s: string, default: string): string {
    if s == "" then default else s
  }

  /** `roll_number or 1`: a missing or zero roll number becomes 1. */
  function OrRoll(n: Option<int>): int {
    if n.None? || n.value == 0 then 1 else n.value
  }

  /** The student columns the view passes to `Student.objects.create`:
      empty class, section and roll fall back to `Class 1`, `A` and 1, empty
      parent fields stay empty, and gender and birth date pass through. */
  function StudentFieldsFrom(g: Registration): (f: StudentInit)
    ensures f.gender == Some(g.gender) && f.dateOfBirth == g.dateOfBirth
    ensures f.className.Some? && f.section.Some? && f.rollNumber.Some?
    ensures f.parentName.Some? && f.parentPhone.Some?
  {
    StudentInit(g.dateOfBirth, Some(g.gender), Some(OrText(g.className, "Class 1")),
                Some(OrText(g.section, "A")), Some(OrRoll(g.rollNumber)),
                Some(OrText(g.parentName, "")), Some(OrText(g.parentPhone, "")))
  }

  /** Falsy answers are replaced by the defaults and everything supplied is kept. */
  lemma RegisteredStudentFields(id: nat, user: nat, sid: string, g: Registration, today: Date)
    ensures var s := NewStudent(id, user, sid, StudentFieldsFrom(g), today);
      && s.className == (if g.className == "" then "Class 1" else g.className)
      && s.section == (if g.section == "" then "A" else g.section)
      && s.rollNumber == (if g.rollNumber.Some? && g.rollNumber.value != 0 then g.rollNumber.value else 1)
      && s.parentName == g.parentName && s.parentPhone == g.parentPhone
      && s.gender == g.gender && s.dateOfBirth == g.dateOfBirth
      && s.user == user && s.studentId == sid && s.admissionDate == today
  {
  }

  // ---------------------------------------------------------------- register

  /** The three tables registration writes to. */
  datatype Accounts = Accounts(users: seq<User>, students: seq<Student>, teachers: seq<Teacher>)

  /** How a registration ends: the form is re-shown with an error; the user
      and the profile are created; or the user is created and the profile
      insert is refused by the database. */
  datatype RegisterResult =
    | FormRejected(error: string)
    | Registered(userId: nat)
    | ProfileRejected(userId: nat, error: string)

  datatype Registering = Registering(db: Accounts, result: RegisterResult)

  function StudentPk(s: Student): nat { s.id }

  /** The user row `form.save()` writes for a cleaned registration. */
  function RegisteredUser(id: nat, g: Registration): (u: User)
    ensures u.id == id && u.username == g.username && u.userType == g.role
    ensures u.email == g.email && u.password == Some(g.password)
    ensures u.firstName == g.firstName && u.lastName == g.lastName && u.phone == g.phone
    ensures u.address == "" && u.profilePicture == ""
  {
    NewUser(id, g.username, Some(g.role), g.firstName, g.lastName, g.email, g.phone, Some(g.password))
  }

  /** `register` on POST, as a function of the tables before it. */
  function RegisterSpec(db: Accounts, f: RegistrationSubmission, v: Validators, digits: string, today: Date): Registering
  {
    match CleanRegistration(f, db.users, v)
    case Err(e) => Registering(db, FormRejected(e))
    case Ok(g) =>
      var uid := NextId(db.users, UserPk);
      var users := db.users + [RegisteredUser(uid, g)];
      if g.role == StudentUser then
        var row := NewStudent(NextId(db.students, StudentPk), uid, GeneratedId(StudentPrefix, digits), StudentFieldsFrom(g), today);
        match InsertStudent(db.students, row)
        case Ok(ss) => Registering(Accounts(users, ss, db.teachers), Registered(uid))
        case Err(e) => Registering(Accounts(users, db.students, db.teachers), ProfileRejected(uid, e))
      else
        var row := NewTeacher(NextId(db.teachers, TeacherPk), uid, GeneratedId(TeacherPrefix, digits), NoTeacherFields, today);
        match InsertTeacher(db.teachers, row)
        case Ok(ts) => Registering(Accounts(users, db.students, ts), Registered(uid))
        case Err(e) => Registering(Accounts(users, db.students, db.teachers), ProfileRejected(uid, e))
  }

  /** `register` on POST: validate, save the user, then create the profile
      the chosen role calls for. */
  method Register(s: Store, f: RegistrationSubmission, v: Validators, digits: string, today: Date)
    returns (result: RegisterResult)
    requires s.Valid()
    modifies s`users, s`students, s`teachers
    ensures Registering(Accounts(s.users, s.students, s.teachers), result)
         == RegisterSpec(Accounts(old(s.users), old(s.students), old(s.teachers)), f, v, digits, today)
    ensures s.Valid()
  {
    RegisterKeepsValid(Accounts(s.users, s.students, s.teachers), f, v, digits, today);
    var form := CleanRegistration(f, s.users, v);
    if form.Err? {
      return FormRejected(form.error);
    }
    var g := form.value;
    var uid := NextId(s.users, UserPk);
    s.users := s.users + [RegisteredUser(uid, g)];
    if g.role == StudentUser {
      var row := NewStudent(NextId(s.students, StudentPk), uid, GeneratedId(StudentPrefix, digits), StudentFieldsFrom(g), today);
      var inserted := InsertStudent(s.students, row);
      if inserted.Err? {
        return ProfileRejected(uid, inserted.error);
      }
      s.students := inserted.value;
    } else {
      var row := NewTeacher(NextId(s.teachers, TeacherPk), uid, GeneratedId(TeacherPrefix, digits), NoTeacherFields, today);
      var inserted := InsertTeacher(s.teachers, row);
      if inserted.Err? {
        return ProfileRejected(uid, inserted.error);
      }
      s.teachers := inserted.value;
    }
    result := Registered(uid);
  }

  /** An invalid form creates nothing. */
  lemma RegisterRejectsInvalid(db: Accounts, f: RegistrationSubmission, v: Validators, digits: string, today: Date)
    requires CleanRegistration(f, db.users, v).Err?
    ensures RegisterSpec(db, f, v, digits, today) == Registering(db, FormRejected(CleanRegistration(f, db.users, v).error))
  {
  }

  /** A valid form always saves exactly one new user, under a fresh id and
      the submitted username, before any profile is attempted; a refused
      profile insert does not take the user back. */
  lemma RegisterSavesUser(db: Accounts, f: RegistrationSubmission, v: Validators, digits: string, today: Date)
    requires CleanRegistration(f, db.users, v).Ok?
    ensures var r := RegisterSpec(db, f, v, digits, today);
      && !r.result.FormRejected?
      && |r.db.users| == |db.users| + 1 && r.db.users[..|db.users|] == db.users
      && r.db.users[|db.users|].id == r.result.userId
      && r.db.users[|db.users|].username == f.username
      && UserTypeKey(r.db.users[|db.users|].userType) == f.userType
      && (forall u :: u in db.users ==> u.id != r.result.userId && u.username != f.username)
  {
    var r := RegisterSpec(db, f, v, digits, today);
    assert r.db.users[..|db.users|] == db.users;
  }

  /** A student registration adds exactly one Student, linked to the new
      user, with id `STU` and the six digits; no teacher is added. It is
      refused only when the generated id (or the user link) is already taken. */
  lemma RegisterStudent(db: Accounts, f: RegistrationSubmission, v: Validators, digits: string, today: Date)
    requires CleanRegistration(f, db.users, v).Ok? && f.userType == "student"
    requires |digits| == 6 && AllDigits(digits)
    ensures var r := RegisterSpec(db, f, v, digits, today);
      && r.db.teachers == db.teachers
      && (r.result.ProfileRejected? <==>
            exists x :: x in db.students && (x.studentId == GeneratedId(StudentPrefix, digits) || x.user == r.result.userId))
      && (r.result.ProfileRejected? ==> r.db.students == db.students && r.result.error == IntegrityError)
      && (r.result.Registered? ==>
            && |r.db.students| == |db.students| + 1 && r.db.students[..|db.students|] == db.students
            && var st := r.db.students[|db.students|];
               st.user == r.result.userId && |st.studentId| == 9 && st.studentId[..3] == "STU"
               && IsDigitString(st.studentId[3..]))
  {
    var r := RegisterSpec(db, f, v, digits, today);
    var g := CleanRegistration(f, db.users, v).value;
    assert g.role == StudentUser;
    if r.result.Registered? {
      assert r.db.students[..|db.students|] == db.students;
    }
  }

  /** A teacher registration adds exactly one Teacher, linked to the new user,
      with id `TCH` and the six digits and every other column at its default;
      no student is added. */
  lemma RegisterTeacher(db: Accounts, f: RegistrationSubmission, v: Validators, digits: string, today: Date)
    requires CleanRegistration(f, db.users, v).Ok? && f.userType == "teacher"
    requires |digits| == 6 && AllDigits(digits)
    ensures var r := RegisterSpec(db, f, v, digits, today);
      && r.db.students == db.students
      && (r.result.ProfileRejected? <==>
            exists x :: x in db.teachers && (x.teacherId == GeneratedId(TeacherPrefix, digits) || x.user == r.result.userId))
      && (r.result.ProfileRejected? ==> r.db.teachers == db.teachers && r.result.error == IntegrityError)
      && (r.result.Registered? ==>
            && |r.db.teachers| == |db.teachers| + 1 && r.db.teachers[..|db.teachers|] == db.teachers
            && var t := r.db.teachers[|db.teachers|];
               t.user == r.result.userId && |t.teacherId| == 9 && t.teacherId[..3] == "TCH"
               && IsDigitString(t.teacherId[3..])
               && t.qualification == "" && t.specialization == "" && t.salary == 0 && t.gender == "Male"
               && t.dateOfBirth.None? && t.joiningDate == today)
  {
    var r := RegisterSpec(db, f, v, digits, today);
    var g := CleanRegistration(f, db.users, v).value;
    assert g.role == TeacherUser;
    if r.result.Registered? {
      assert r.db.teachers[..|db.teachers|] == db.teachers;
    }
  }

  /** Registration keeps every unique constraint of the three tables. */
  lemma RegisterKeepsValid(db: Accounts, f: RegistrationSubmission, v: Validators, digits: string, today: Date)
    requires UsersValid(db.users) && StudentsValid(db.students) && TeachersValid(db.teachers)
    ensures var r := RegisterSpec(db, f, v, digits, today).db;
      UsersValid(r.users) && StudentsValid(r.students) && TeachersValid(r.teachers)
  {
    match CleanRegistration(f, db.users, v)
    case Err(_) =>
    case Ok(g) =>
      var uid := NextId(db.users, UserPk);
      var u := RegisteredUser(uid, g);
      forall y | y in db.users ensures UserPk(y) != UserPk(u) && UserName(y) != UserName(u) {
        var i :| 0 <= i < |db.users| && db.users[i] == y;
      }
      AppendKeepsUnique(db.users, u, UserPk);
      AppendKeepsUnique(db.users, u, UserName);
      if g.role == StudentUser {
        var row := NewStudent(NextId(db.students, StudentPk), uid, GeneratedId(StudentPrefix, digits), StudentFieldsFrom(g), today);
        InsertStudentKeepsValid(db.students, row);
      } else {
        var row := NewTeacher(NextId(db.teachers, TeacherPk), uid, GeneratedId(TeacherPrefix, digits), NoTeacherFields, today);
        InsertTeacherKeepsValid(db.teachers, row);
      }
  }

  // ---------------------------------------------------------------- dashboard

  /** The dashboard's template context. The outer option says whether the
      `student` (or `teacher`) key is present, the inner one whether a
      profile was found. */
  datatype DashboardContext = DashboardContext(
    userType: UserType, student: Option<Option<Student>>, teacher: Option<Option<Teacher>>)

  /** `dashboard`: a student gets their Student profile or None, a teacher
      their Teacher profile or None; admins and parents get neither key. */
  function Dashboard(u: User, students: seq<Student>, teachers: seq<Teacher>): (c: DashboardContext)
    ensures c.userType == u.userType
    ensures c.student.Some? <==> u.userType == StudentUser
    ensures c.teacher.Some? <==> u.userType == TeacherUser
    ensures c.student.Some? ==> (c.student.value.None? <==> forall x :: x in students ==> x.user != u.id)
    ensures c.student.Some? && c.student.value.Some? ==>
      c.student.value.value in students && c.student.value.value.user == u.id
    ensures c.teacher.Some? ==> (c.teacher.value.None? <==> forall x :: x in teachers ==> x.user != u.id)
    ensures c.teacher.Some? && c.teacher.value.Some? ==>
      c.teacher.value.value in teachers && c.teacher.value.value.user == u.id
  {
    if u.userType == StudentUser then DashboardContext(u.userType, Some(StudentOf(students, u.id)), None)
    else if u.userType == TeacherUser then DashboardContext(u.userType, None, Some(TeacherOf(teachers, u.id)))
    else DashboardContext(u.userType, None, None)
  }

  /** A registered student sees their own profile on the dashboard. */
  lemma DashboardShowsOwnProfile(u: User, students: seq<Student>, teachers: seq<Teacher>, x: Student)
    requires StudentsValid(students) && x in students && x.user == u.id && u.userType == StudentUser
    ensures Dashboard(u, students, teachers).student == Some(Some(x))
  {
    StudentOfUnique(students, u.id, x);
  }

  /** After a successful registration the new user's dashboard shows the
      profile registration created. */
  lemma RegisterThenDashboard(db: Accounts, f: RegistrationSubmission, v: Validators, digits: string, today: Date)
    requires UsersValid(db.users) && StudentsValid(db.students) && TeachersValid(db.teachers)
    requires RegisterSpec(db, f, v, digits, today).result.Registered?
    ensures var r := RegisterSpec(db, f, v, digits, today);
      var u := r.db.users[|db.users|];
      var c := Dashboard(u, r.db.students, r.db.teachers);
      (c.student.Some? && c.student.value.Some?) || (c.teacher.Some? && c.teacher.value.Some?)
  {
    var r := RegisterSpec(db, f, v, digits, today);
    RegisterSavesUser(db, f, v, digits, today);
    var u := r.db.users[|db.users|];
    var g := CleanRegistration(f, db.users, v).value;
    if g.role == StudentUser {
      assert r.db.students[|db.students|].user == u.id;
      assert r.db.students[|db.students|] in r.db.students;
    } else {
      assert r.db.teachers[|db.teachers|].user == u.id;
      assert r.db.teachers[|db.teachers|] in r.db.teachers;
    }
  }
}
