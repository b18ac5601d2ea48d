/** The school's record types, their choice lists, field defaults and unique
    constraints, and the store that holds one table per record type. */
module SchoolModels {
  import opened Common
  import opened Tables
  import opened AccountsModels

  // ---------------------------------------------------------------- choices

  /** `ClassRoutine.day`: a school day, Monday through Saturday. */
  datatype Day = Monday | Tuesday | Wednesday | Thursday | Friday | Saturday

  function DayName(d: Day): string {
    match d
    case Monday => "Monday"
    case Tuesday => "Tuesday"
    case Wednesday => "Wednesday"
    case Thursday => "Thursday"
    case Friday => "Friday"
    case Saturday => "Saturday"
  }

  /** Reads a submitted day; Sunday and anything else is not a choice. */
  function ParseDay(s: string): (r: Option<Day>)
    ensures r.Some? ==> DayName(r.value) == s
    ensures r.None? ==> forall d: Day :: DayName(d) != s
  {
    if s == "Monday" then Some(Monday)
    else if s == "Tuesday" then Some(Tuesday)
    else if s == "Wednesday" then Some(Wednesday)
    else if s == "Thursday" then Some(Thursday)
    else if s == "Friday" then Some(Friday)
    else if s == "Saturday" then Some(Saturday)
    else None
  }

  lemma DayRoundTrip(d: Day)
    ensures ParseDay(DayName(d)) == Some(d)
  {
  }

  /** `Notice.target_audience`. */
  datatype Audience = ToAll | ToTeachers | ToStudents | ToParents

  function AudienceKey(a: Audience): string {
    match a
    case ToAll => "All"
    case ToTeachers => "Teachers"
    case ToStudents => "Students"
    case ToParents => "Parents"
  }

  function ParseAudience(s: string): (r: Option<Audience>)
    ensures r.Some? ==> AudienceKey(r.value) == s
    ensures r.None? ==> forall a: Audience :: AudienceKey(a) != s
  {
    if s == "All" then Some(ToAll)
    else if s == "Teachers" then Some(ToTeachers)
    else if s == "Students" then Some(ToStudents)
    else if s == "Parents" then Some(ToParents)
    else None
  }

  /** `Attendance.status`. */
  datatype AttendanceStatus = Present | Absent

  /** `Gallery.category` (`CATEGORY_CHOICES`). */
  datatype GalleryCategory = School | Events | Sports | Cultural | Classroom | Teachers | Students

  function CategoryKey(c: GalleryCategory): string {
    match c
    case School => "school"
    case Events => "events"
    case Sports => "sports"
    case Cultural => "cultural"
    case Classroom => "classroom"
    case Teachers => "teachers"
    case Students => "students"
  }

  /** `Contact.subject` (`SUBJECT_CHOICES`). */
  datatype ContactSubject = Admission | Academic | FeeStructure | General | Complaint | Suggestion | Other

  function ContactSubjectKey(c: ContactSubject): string {
    match c
    case Admission => "admission"
    case Academic => "academic"
    case FeeStructure => "fee"
    case General => "general"
    case Complaint => "complaint"
    case Suggestion => "suggestion"
    case Other => "other"
  }

  function ParseContactSubject(s: string): (r: Option<ContactSubject>)
    ensures r.Some? ==> ContactSubjectKey(r.value) == s
    ensures r.None? ==> forall c: ContactSubject :: ContactSubjectKey(c) != s
  {
    if s == "admission" then Some(Admission)
    else if s == "academic" then Some(Academic)
    else if s == "fee" then Some(FeeStructure)
    else if s == "general" then Some(General)
    else if s == "complaint" then Some(Complaint)
    else if s == "suggestion" then Some(Suggestion)
    else if s == "other" then Some(Other)
    else None
  }

  // ---------------------------------------------------------------- records
  // Foreign keys are kept as the referenced row's `id`.

  /** `gender` stays a free string: the model's choices are not enforced when a
      row is created directly, and registration may store the empty choice. */
  datatype Student = Student(
    id: nat, user: nat, studentId: string, dateOfBirth: Option<Date>, gender: string,
    className: string, section: string, rollNumber: int,
    parentName: string, parentPhone: string, admissionDate: Date)

  datatype Teacher = Teacher(
    id: nat, user: nat, teacherId: string, dateOfBirth: Option<Date>, gender: string,
    qualification: string, specialization: string, joiningDate: Date, salary: Decimal)

  datatype Class = Class(id: nat, name: string, section: string, classTeacher: Option<nat>)

  datatype Subject = Subject(id: nat, name: string, classId: nat, teacher: nat)

  datatype ClassRoutine = ClassRoutine(
    id: nat, classId: nat, day: Day, subject: nat, startTime: TimeOfDay, endTime: TimeOfDay)

  datatype Notice = Notice(
    id: nat, title: string, content: string, createdAt: Timestamp, targetAudience: Audience)

  datatype Attendance = Attendance(
    id: nat, student: nat, date: Date, status: AttendanceStatus, classId: nat)

  datatype Result = Result(
    id: nat, student: nat, subject: nat, examName: string,
    marks: Decimal, totalMarks: Decimal, grade: string)

  datatype Fee = Fee(
    id: nat, student: nat, amount: Decimal, dueDate: Date, paid: bool, paymentDate: Option<Date>)

  datatype Book = Book(
    id: nat, title: string, author: string, isbn: string, quantity: int, available: int)

  datatype BookIssue = BookIssue(
    id: nat, book: nat, student: nat, issueDate: Date, returnDate: Date, returned: bool)

  datatype Gallery = Gallery(
    id: nat, title: string, description: string, image: string, category: GalleryCategory,
    uploadedBy: nat, uploadDate: Timestamp, isActive: bool)

  datatype Contact = Contact(
    id: nat, name: string, email: string, phone: string, subject: ContactSubject,
    message: string, submittedAt: Timestamp, isRead: bool, responded: bool)

  // ---------------------------------------------------------------- defaults

  function OrElse<T>(o: Option<T>, default: T): T {
    if o.Some? then o.value else default
  }

  /** What a `Student.objects.create(...)` call may leave out. */
  datatype StudentInit = StudentInit(
    dateOfBirth: Option<Date>, gender: Option<string>, className: Option<string>,
    section: Option<string>, rollNumber: Option<int>,
    parentName: Option<string>, parentPhone: Option<string>)

  const NoStudentFields := StudentInit(None, None, None, None, None, None, None)

  /** A new Student row: omitted fields take the model defaults and the
      admission date is the day of creation. */
  function NewStudent(id: nat, user: nat, studentId: string, f: StudentInit, today: Date): (s: Student)
    ensures s.id == id && s.user == user && s.studentId == studentId && s.admissionDate == today
  {
    Student(id, user, studentId, f.dateOfBirth, OrElse(f.gender, "Male"),
            OrElse(f.className, "Class 1"), OrElse(f.section, "A"), OrElse(f.rollNumber, 1),
            OrElse(f.parentName, ""), OrElse(f.parentPhone, ""), today)
  }

  /** With nothing supplied a student is male, in Class 1 section A, roll 1,
      with blank parent fields and no birth date. */
  lemma NewStudentDefaults(id: nat, user: nat, studentId: string, today: Date)
    ensures var s := NewStudent(id, user, studentId, NoStudentFields, today);
      s.gender == "Male" && s.className == "Class 1" && s.section == "A" && s.rollNumber == 1
      && s.parentName == "" && s.parentPhone == "" && s.dateOfBirth.None?
  {
  }

  /** What a `Teacher.objects.create(...)` or `get_or_create(defaults=...)` call may leave out. */
  datatype TeacherInit = TeacherInit(
    dateOfBirth: Option<Date>, gender: Option<string>, qualification: Option<string>,
    specialization: Option<string>, salary: Option<Decimal>)

  const NoTeacherFields := TeacherInit(None, None, None, None, None)

  /** A new Teacher row: omitted fields take the model defaults and the
      joining date is the day of creation. */
  function NewTeacher(id: nat, user: nat, teacherId: string, f: TeacherInit, today: Date): (t: Teacher)
    ensures t.id == id && t.user == user && t.teacherId == teacherId && t.joiningDate == today
  {
    Teacher(id, user, teacherId, f.dateOfBirth, OrElse(f.gender, "Male"),
            OrElse(f.qualification, ""), OrElse(f.specialization, ""), today, OrElse(f.salary, 0))
  }

  lemma NewTeacherDefaults(id: nat, user: nat, teacherId: string, today: Date)
    ensures var t := NewTeacher(id, user, teacherId, NoTeacherFields, today);
      t.gender == "Male" && t.qualification == "" && t.specialization == "" && t.salary == 0
      && t.dateOfBirth.None?
  {
  }

  /** A new Contact row: subject `general` unless given; never read, never responded. */
  function NewContact(id: nat, name: string, email: string, phone: string,
                      subject: Option<ContactSubject>, message: string, now: Timestamp): (c: Contact)
    ensures !c.isRead && !c.responded
    ensures c.subject == if subject.Some? then subject.value else General
    ensures c.id == id && c.submittedAt == now && c.message == message
    ensures c.name == name && c.email == email && c.phone == phone
  {
    Contact(id, name, email, phone, OrElse(subject, General), message, now, false, false)
  }

  /** A new Gallery row: category `school` unless given, active, stamped with the upload time. */
  function NewGallery(id: nat, title: string, description: string, image: string,
                      category: Option<GalleryCategory>, uploadedBy: nat, now: Timestamp): (g: Gallery)
    ensures g.isActive && g.uploadDate == now && g.uploadedBy == uploadedBy
    ensures g.category == if category.Some? then category.value else School
    ensures g.id == id && g.title == title && g.description == description && g.image == image
  {
    Gallery(id, title, description, image, OrElse(category, School), uploadedBy, now, true)
  }

  /** A new Fee row: unpaid, with no payment date unless one is given. */
  function NewFee(id: nat, student: nat, amount: Decimal, dueDate: Date,
                  paid: Option<bool>, paymentDate: Option<Date>): (f: Fee)
    ensures paid.None? ==> !f.paid
    ensures paid.Some? ==> f.paid == paid.value
    ensures f.id == id && f.amount == amount
    ensures f.paymentDate == paymentDate && f.dueDate == dueDate && f.student == student
  {
    Fee(id, student, amount, dueDate, OrElse(paid, false), paymentDate)
  }

  /** A new Result row: out of 100 marks unless a total is given. */
  function NewResult(id: nat, student: nat, subject: nat, examName: string, marks: Decimal,
                     totalMarks: Option<Decimal>, grade: string): (r: Result)
    ensures totalMarks.None? ==> r.totalMarks == 10000
    ensures totalMarks.Some? ==> r.totalMarks == totalMarks.value
    ensures r.id == id && r.examName == examName && r.grade == grade
    ensures r.student == student && r.subject == subject && r.marks == marks
  {
    Result(id, student, subject, examName, marks, OrElse(totalMarks, 10000), grade)
  }

  // ---------------------------------------------------------------- default orderings

  /** Gallery rows are listed newest upload first unless a query orders them otherwise. */
  function GalleryUploaded(g: Gallery): int { g.uploadDate }

  /** Contact messages are listed newest first unless a query orders them otherwise. */
  function ContactSubmitted(c: Contact): int { c.submittedAt }

  // ---------------------------------------------------------------- constraints

  // Key columns of the tables the seeding scripts write to.
  function UserPk(u: User): nat { u.id }
  function UserName(u: User): string { u.username }
  function TeacherPk(t: Teacher): nat { t.id }
  function TeacherUserKey(t: Teacher): nat { t.user }
  function TeacherIdKey(t: Teacher): string { t.teacherId }
  function ClassPk(c: Class): nat { c.id }
  function SubjectPk(s: Subject): nat { s.id }
  function RoutinePk(r: ClassRoutine): nat { r.id }
  function GalleryPk(g: Gallery): nat { g.id }
  function ContactPk(c: Contact): nat { c.id }

  /** Users: primary key and `username` unique. */
  ghost predicate UsersValid(us: seq<User>) {
    UniqueBy(us, UserPk) && UniqueBy(us, UserName)
  }

  /** Students: primary key, the one-to-one `user` link and `student_id` unique. */
  ghost predicate StudentsValid(ss: seq<Student>) {
    UniqueBy(ss, (s: Student) => s.id) && UniqueBy(ss, (s: Student) => s.user)
    && UniqueBy(ss, (s: Student) => s.studentId)
  }

  /** Teachers: primary key, the one-to-one `user` link and `teacher_id` unique. */
  ghost predicate TeachersValid(ts: seq<Teacher>) {
    UniqueBy(ts, TeacherPk) && UniqueBy(ts, TeacherUserKey) && UniqueBy(ts, TeacherIdKey)
  }

  /** Attendance: primary key and at most one row per (student, date). */
  ghost predicate AttendanceValid(as_: seq<Attendance>) {
    UniqueBy(as_, (a: Attendance) => a.id) && UniqueBy(as_, (a: Attendance) => (a.student, a.date))
  }

  /** Books: primary key and `isbn` unique. */
  ghost predicate BooksValid(bs: seq<Book>) {
    UniqueBy(bs, (b: Book) => b.id) && UniqueBy(bs, (b: Book) => b.isbn)
  }

  /** Why the database refuses an insert. */
  const IntegrityError := "UNIQUE constraint failed"

  /** `Student.objects.create`: the database refuses a row that repeats a
      primary key, a user that already has a profile, or a `student_id`. */
  function InsertStudent(ss: seq<Student>, s: Student): (r: Outcome<seq<Student>>)
    ensures r.Ok? <==> forall x :: x in ss ==> x.id != s.id && x.user != s.user && x.studentId != s.studentId
    ensures r.Ok? ==> r.value == ss + [s]
    ensures r.Err? ==> r.error == IntegrityError
  {
    if forall x :: x in ss ==> x.id != s.id && x.user != s.user && x.studentId != s.studentId
    then Ok(ss + [s]) else Err(IntegrityError)
  }

  lemma InsertStudentKeepsValid(ss: seq<Student>, s: Student)
    requires StudentsValid(ss)
    ensures InsertStudent(ss, s).Ok? ==> StudentsValid(InsertStudent(ss, s).value)
  {
    if InsertStudent(ss, s).Ok? {
      AppendKeepsUnique(ss, s, (x: Student) => x.id);
      AppendKeepsUnique(ss, s, (x: Student) => x.user);
      AppendKeepsUnique(ss, s, (x: Student) => x.studentId);
    }
  }

  /** `Teacher.objects.create`: the same three unique columns as for students. */
  function InsertTeacher(ts: seq<Teacher>, t: Teacher): (r: Outcome<seq<Teacher>>)
    ensures r.Ok? <==> forall x :: x in ts ==> x.id != t.id && x.user != t.user && x.teacherId != t.teacherId
    ensures r.Ok? ==> r.value == ts + [t]
    ensures r.Err? ==> r.error == IntegrityError
  {
    if forall x :: x in ts ==> x.id != t.id && x.user != t.user && x.teacherId != t.teacherId
    then Ok(ts + [t]) else Err(IntegrityError)
  }

  lemma InsertTeacherKeepsValid(ts: seq<Teacher>, t: Teacher)
    requires TeachersValid(ts)
    ensures InsertTeacher(ts, t).Ok? ==> TeachersValid(InsertTeacher(ts, t).value)
  {
    if InsertTeacher(ts, t).Ok? {
      AppendKeepsUnique(ts, t, TeacherPk);
      AppendKeepsUnique(ts, t, TeacherUserKey);
      AppendKeepsUnique(ts, t, TeacherIdKey);
    }
  }

  /** Inserting an Attendance row: refused when the student already has a row for that date. */
  function InsertAttendance(as_: seq<Attendance>, a: Attendance): (r: Outcome<seq<Attendance>>)
    ensures r.Ok? <==> forall x :: x in as_ ==> x.id != a.id && (x.student, x.date) != (a.student, a.date)
    ensures r.Ok? ==> r.value == as_ + [a]
  {
    if forall x :: x in as_ ==> x.id != a.id && (x.student, x.date) != (a.student, a.date)
    then Ok(as_ + [a]) else Err(IntegrityError)
  }

  /** Whatever is inserted, a student never gets two attendance rows for one day. */
  lemma InsertAttendanceKeepsValid(as_: seq<Attendance>, a: Attendance)
    requires AttendanceValid(as_)
    ensures InsertAttendance(as_, a).Ok? ==> AttendanceValid(InsertAttendance(as_, a).value)
  {
    if InsertAttendance(as_, a).Ok? {
      AppendKeepsUnique(as_, a, (x: Attendance) => x.id);
      AppendKeepsUnique(as_, a, (x: Attendance) => (x.student, x.date));
    }
  }

  /** Inserting a Book: refused when its ISBN is already catalogued. */
  function InsertBook(bs: seq<Book>, b: Book): (r: Outcome<seq<Book>>)
    ensures r.Ok? <==> forall x :: x in bs ==> x.id != b.id && x.isbn != b.isbn
    ensures r.Ok? ==> r.value == bs + [b]
  {
    if forall x :: x in bs ==> x.id != b.id && x.isbn != b.isbn then Ok(bs + [b]) else Err(IntegrityError)
  }

  lemma InsertBookKeepsValid(bs: seq<Book>, b: Book)
    requires BooksValid(bs)
    ensures InsertBook(bs, b).Ok? ==> BooksValid(InsertBook(bs, b).value)
  {
    if InsertBook(bs, b).Ok? {
      AppendKeepsUnique(bs, b, (x: Book) => x.id);
      AppendKeepsUnique(bs, b, (x: Book) => x.isbn);
    }
  }

  // ---------------------------------------------------------------- profiles

  /** `Student.objects.get(user=u)`: the student profile of a user, None
      where Django raises `DoesNotExist`. */
  function StudentOf(ss: seq<Student>, userId: nat): (r: Option<Student>)
    ensures r.Some? ==> r.value in ss && r.value.user == userId
    ensures r.None? <==> forall x :: x in ss ==> x.user != userId
  {
    var found := Filter(ss, (x: Student) => x.user == userId);
    if found == [] then None else Some(found[0])
  }

  /** `Teacher.objects.get(user=u)`. */
  function TeacherOf(ts: seq<Teacher>, userId: nat): (r: Option<Teacher>)
    ensures r.Some? ==> r.value in ts && r.value.user == userId
    ensures r.None? <==> forall x :: x in ts ==> x.user != userId
  {
    var found := Filter(ts, (x: Teacher) => x.user == userId);
    if found == [] then None else Some(found[0])
  }

  /** With the one-to-one link kept, a user's student profile is the one row naming them. */
  lemma StudentOfUnique(ss: seq<Student>, userId: nat, x: Student)
    requires StudentsValid(ss) && x in ss && x.user == userId
    ensures StudentOf(ss, userId) == Some(x)
  {
    var y := StudentOf(ss, userId).value;
    var i :| 0 <= i < |ss| && ss[i] == x;
    var j :| 0 <= j < |ss| && ss[j] == y;
    assert ss[i].user == ss[j].user;
  }

  /** With the one-to-one link kept, a user's teacher profile is the one row naming them. */
  lemma TeacherOfUnique(ts: seq<Teacher>, userId: nat, x: Teacher)
    requires TeachersValid(ts) && x in ts && x.user == userId
    ensures TeacherOf(ts, userId) == Some(x)
  {
    var y := TeacherOf(ts, userId).value;
    var i :| 0 <= i < |ts| && ts[i] == x;
    var j :| 0 <= j < |ts| && ts[j] == y;
    assert TeacherUserKey(ts[i]) == TeacherUserKey(ts[j]);
  }

  // ---------------------------------------------------------------- the store

  /** The database: one table per model. Views and scripts change it in place. */
  class Store {
    var users: seq<User>
    var students: seq<Student>
    var teachers: seq<Teacher>
    var classes: seq<Class>
    var subjects: seq<Subject>
    var routines: seq<ClassRoutine>
    var notices: seq<Notice>
    var attendance: seq<Attendance>
    var results: seq<Result>
    var fees: seq<Fee>
    var books: seq<Book>
    var bookIssues: seq<BookIssue>
    var gallery: seq<Gallery>
    var contacts: seq<Contact>

    /** Every table keeps the constraints the models declare. */
    ghost predicate Valid()
      reads this
    {
      && UsersValid(users)
      && StudentsValid(students)
      && TeachersValid(teachers)
      && UniqueBy(classes, ClassPk)
      && UniqueBy(subjects, SubjectPk)
      && UniqueBy(routines, RoutinePk)
      && UniqueBy(notices, (n: Notice) => n.id)
      && AttendanceValid(attendance)
      && UniqueBy(results, (r: Result) => r.id)
      && UniqueBy(fees, (f: Fee) => f.id)
      && BooksValid(books)
      && UniqueBy(bookIssues, (b: BookIssue) => b.id)
      && UniqueBy(gallery, GalleryPk)
      && UniqueBy(contacts, ContactPk)
    }

    /** An empty database. */
    constructor ()
      ensures Valid()
      ensures users == [] && students == [] && teachers == [] && classes == [] && subjects == []
      ensures routines == [] && notices == [] && attendance == [] && results == [] && fees == []
      ensures books == [] && bookIssues == [] && gallery == [] && contacts == []
    {
      users, students, teachers, classes, subjects := [], [], [], [], [];
      routines, notices, attendance, results, fees := [], [], [], [], [];
      books, bookIssues, gallery, contacts := [], [], [], [];
    }
  }
}
