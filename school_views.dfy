/** The school views that decide who sees which rows: per-role filters over
    the tables, role gates, and the owner checks in front of edits and
    deletions. The caller is an authenticated user; what a view renders is
    the list of rows it would hand to its template. */
module SchoolViews {
  import opened Common
  import opened Tables
  import opened AccountsModels
  import opened SchoolModels
  import opened GetOrCreate

  // ---------------------------------------------------------------- lookups

  predicate ClassHasId(c: Class, id: nat) { c.id == id }
  predicate SubjectHasId(s: Subject, id: nat) { s.id == id }

  /** The name of the class a routine belongs to (`routine.class_name.name`). */
  function RoutineClassName(classes: seq<Class>, r: ClassRoutine): (n: Option<string>)
    ensures n.Some? ==> exists c :: c in classes && c.id == r.classId && c.name == n.value
    ensures n.None? ==> forall c :: c in classes ==> c.id != r.classId
  {
    match Find(classes, r.classId, ClassHasId)
    case None => None
    case Some(c) => Some(c.name)
  }

  /** `subject__in=Subject.objects.filter(teacher=t)`: the subject is one the teacher teaches. */
  predicate TeachesSubject(subjects: seq<Subject>, teacherId: nat, subjectId: nat) {
    exists i :: 0 <= i < |subjects| && subjects[i].id == subjectId && subjects[i].teacher == teacherId
  }

  /** `class_name__in=Class.objects.filter(class_teacher=t)`: the class is one the teacher leads. */
  predicate LeadsClass(classes: seq<Class>, teacherId: nat, classId: nat) {
    exists i :: 0 <= i < |classes| && classes[i].id == classId && classes[i].classTeacher == Some(teacherId)
  }

  // ---------------------------------------------------------------- class_routine

  /** `class_routine`: a student sees the routines of every class whose name
      is their `class_name`, whatever its section; a student without a
      profile sees none; every other role sees all routines. */
  function ClassRoutineView(u: User, routines: seq<ClassRoutine>, classes: seq<Class>, students: seq<Student>)
    : (r: seq<ClassRoutine>)
    ensures u.userType != StudentUser ==> r == routines
    ensures u.userType == StudentUser && StudentOf(students, u.id).None? ==> r == []
    ensures u.userType == StudentUser && StudentOf(students, u.id).Some? ==>
      && (forall x :: x in r <==> x in routines && RoutineClassName(classes, x) == Some(StudentOf(students, u.id).value.className))
      && forall x :: multiset(r)[x] == (if RoutineClassName(classes, x) == Some(StudentOf(students, u.id).value.className)
                                        then multiset(routines)[x] else 0)
  {
    if u.userType != StudentUser then routines
    else match StudentOf(students, u.id)
      case None => []
      case Some(st) => Filter(routines, (x: ClassRoutine) => RoutineClassName(classes, x) == Some(st.className))
  }

  /** The section plays no part: routines of two sections of the student's
      class are both shown. */
  lemma ClassRoutineIgnoresSection(u: User, routines: seq<ClassRoutine>, classes: seq<Class>, students: seq<Student>,
                                   st: Student, c1: Class, c2: Class, r1: ClassRoutine, r2: ClassRoutine)
    requires u.userType == StudentUser && StudentsValid(students) && st in students && st.user == u.id
    requires UniqueBy(classes, ClassPk)
    requires c1 in classes && c2 in classes && c1.name == st.className && c2.name == st.className
    requires r1 in routines && r2 in routines && r1.classId == c1.id && r2.classId == c2.id
    ensures r1 in ClassRoutineView(u, routines, classes, students)
    ensures r2 in ClassRoutineView(u, routines, classes, students)
  {
    StudentOfUnique(students, u.id, st);
    ClassNameById(classes, c1, r1);
    ClassNameById(classes, c2, r2);
  }

  /** With class ids unique, a routine's class name is the name of the class it points at. */
  lemma ClassNameById(classes: seq<Class>, c: Class, r: ClassRoutine)
    requires UniqueBy(classes, ClassPk) && c in classes && r.classId == c.id
    ensures RoutineClassName(classes, r) == Some(c.name)
  {
    var d := Find(classes, r.classId, ClassHasId).value;
    var i :| 0 <= i < |classes| && classes[i] == c;
    var j :| 0 <= j < |classes| && classes[j] == d;
    assert ClassPk(classes[i]) == ClassPk(classes[j]);
  }

  // ---------------------------------------------------------------- notice_board

  function NoticeCreated(n: Notice): int { n.createdAt }

  /** The audiences a student may read. */
  predicate ForStudents(n: Notice) {
    n.targetAudience == ToStudents || n.targetAudience == ToAll
  }

  /** `notice_board`: all notices newest first; students see only those for
      students or for everyone. */
  function NoticeBoard(u: User, notices: seq<Notice>): (r: seq<Notice>)
    ensures SortedDesc(r, NoticeCreated)
    ensures u.userType != StudentUser ==> multiset(r) == multiset(notices)
    ensures u.userType == StudentUser ==> forall n :: n in r <==> n in notices && ForStudents(n)
    ensures u.userType == StudentUser ==> forall n :: multiset(r)[n] == if ForStudents(n) then multiset(notices)[n] else 0
  {
    if u.userType != StudentUser then SortDesc(notices, NoticeCreated)
    else FilterSorted(notices, ForStudents, NoticeCreated)
  }

  // ---------------------------------------------------------------- results

  /** `results`: a student sees their own results, a teacher the results of
      the subjects they teach, a caller whose profile is missing nothing,
      and every other role (admin, parent) all results. */
  function ResultsView(u: User, results: seq<Result>, students: seq<Student>, teachers: seq<Teacher>,
                       subjects: seq<Subject>): (r: seq<Result>)
    ensures u.userType == StudentUser ==> match StudentOf(students, u.id)
      case None => r == []
      case Some(st) => && (forall x :: x in r <==> x in results && x.student == st.id)
                       && forall x :: multiset(r)[x] == if x.student == st.id then multiset(results)[x] else 0
    ensures u.userType == TeacherUser ==> match TeacherOf(teachers, u.id)
      case None => r == []
      case Some(t) => && (forall x :: x in r <==> x in results && TeachesSubject(subjects, t.id, x.subject))
                      && forall x :: multiset(r)[x] == if TeachesSubject(subjects, t.id, x.subject) then multiset(results)[x] else 0
    ensures u.userType != StudentUser && u.userType != TeacherUser ==> r == results
  {
    if u.userType == StudentUser then
      match StudentOf(students, u.id)
      case None => []
      case Some(st) => Filter(results, (x: Result) => x.student == st.id)
    else if u.userType == TeacherUser then
      match TeacherOf(teachers, u.id)
      case None => []
      case Some(t) => Filter(results, (x: Result) => TeachesSubject(subjects, t.id, x.subject))
    else results
  }

  /** No student ever sees a result that belongs to another student. */
  lemma ResultsArePrivate(u: User, results: seq<Result>, students: seq<Student>, teachers: seq<Teacher>,
                          subjects: seq<Subject>, other: Student)
    requires u.userType == StudentUser && StudentsValid(students)
    requires other in students && other.user != u.id
    ensures forall x :: x in ResultsView(u, results, students, teachers, subjects) ==> x.student != other.id
  {
    if StudentOf(students, u.id).Some? {
      var st := StudentOf(students, u.id).value;
      var i :| 0 <= i < |students| && students[i] == st;
      var j :| 0 <= j < |students| && students[j] == other;
      assert st.user != other.user;
      assert i != j;
    }
  }

  // ---------------------------------------------------------------- attendance_tracking

  function AttendanceDate(a: Attendance): int { a.date }

  /** `attendance_tracking`: a student sees their own attendance, latest
      date first; a teacher sees the attendance of the classes they lead;
      a missing profile sees nothing; every other role sees all of it. */
  function AttendanceView(u: User, attendance: seq<Attendance>, students: seq<Student>, teachers: seq<Teacher>,
                          classes: seq<Class>): (r: seq<Attendance>)
    ensures u.userType == StudentUser ==> match StudentOf(students, u.id)
      case None => r == []
      case Some(st) => && SortedDesc(r, AttendanceDate)
                       && (forall x :: x in r <==> x in attendance && x.student == st.id)
                       && forall x :: multiset(r)[x] == if x.student == st.id then multiset(attendance)[x] else 0
    ensures u.userType == TeacherUser ==> match TeacherOf(teachers, u.id)
      case None => r == []
      case Some(t) => && (forall x :: x in r <==> x in attendance && LeadsClass(classes, t.id, x.classId))
                      && forall x :: multiset(r)[x] == if LeadsClass(classes, t.id, x.classId) then multiset(attendance)[x] else 0
    ensures u.userType != StudentUser && u.userType != TeacherUser ==> r == attendance
  {
    if u.userType == StudentUser then
      match StudentOf(students, u.id)
      case None => []
      case Some(st) =>
        FilterSorted(attendance, (x: Attendance) => x.student == st.id, AttendanceDate)
    else if u.userType == TeacherUser then
      match TeacherOf(teachers, u.id)
      case None => []
      case Some(t) => Filter(attendance, (x: Attendance) => LeadsClass(classes, t.id, x.classId))
    else attendance
  }

  // ---------------------------------------------------------------- fee_payment

  function FeeDue(f: Fee): int { f.dueDate }

  /** `fee_payment`: a student sees their own fees, latest due date first
      (none without a profile); a teacher is refused; every other role sees
      all fees. */
  function FeesView(u: User, fees: seq<Fee>, students: seq<Student>): (r: Response<seq<Fee>>)
    ensures r.Forbidden? <==> u.userType == TeacherUser
    ensures !r.NotFound?
    ensures u.userType == StudentUser ==> match StudentOf(students, u.id)
      case None => r == Allowed([])
      case Some(st) => r.Allowed? && SortedDesc(r.value, FeeDue)
                       && (forall x :: x in r.value <==> x in fees && x.student == st.id)
                       && forall x :: multiset(r.value)[x] == if x.student == st.id then multiset(fees)[x] else 0
    ensures u.userType != StudentUser && u.userType != TeacherUser ==> r == Allowed(fees)
  {
    if u.userType == StudentUser then
      match StudentOf(students, u.id)
      case None => Allowed([])
      case Some(st) =>
        Allowed(FilterSorted(fees, (x: Fee) => x.student == st.id, FeeDue))
    else if u.userType == TeacherUser then Forbidden
    else Allowed(fees)
  }

  /** A student or teacher whose profile row is missing is shown nothing:
      no routines, results, attendance or fees. */
  lemma MissingProfileSeesNothing(u: User, db: Store)
    requires u.userType == StudentUser ==> StudentOf(db.students, u.id).None?
    requires u.userType == TeacherUser ==> TeacherOf(db.teachers, u.id).None?
    requires u.userType == StudentUser || u.userType == TeacherUser
    ensures u.userType == StudentUser ==> ClassRoutineView(u, db.routines, db.classes, db.students) == []
    ensures ResultsView(u, db.results, db.students, db.teachers, db.subjects) == []
    ensures AttendanceView(u, db.attendance, db.students, db.teachers, db.classes) == []
    ensures u.userType == StudentUser ==> FeesView(u, db.fees, db.students) == Allowed([])
    ensures u.userType == TeacherUser ==> FeesView(u, db.fees, db.students) == Forbidden
  {
  }

  // ---------------------------------------------------------------- role gates

  /** `student_management`: admins and teachers see all students. */
  function StudentManagement(u: User, students: seq<Student>): (r: Response<seq<Student>>)
    ensures r.Allowed? <==> IsStaff(u)
    ensures r.Allowed? ==> r.value == students
    ensures !r.NotFound?
  {
    if IsStaff(u) then Allowed(students) else Forbidden
  }

  /** `teacher_management`: only admins see the teachers. */
  function TeacherManagement(u: User, teachers: seq<Teacher>): (r: Response<seq<Teacher>>)
    ensures r.Allowed? <==> u.userType == AdminUser
    ensures r.Allowed? ==> r.value == teachers
    ensures !r.NotFound?
  {
    if u.userType == AdminUser then Allowed(teachers) else Forbidden
  }

  /** `online_admission`: open to students and admins. */
  function OnlineAdmission(u: User): (r: Response<()>)
    ensures r.Allowed? <==> u.userType == StudentUser || u.userType == AdminUser
    ensures !r.NotFound?
  {
    if u.userType == StudentUser || u.userType == AdminUser then Allowed(()) else Forbidden
  }

  /** `manage_class_routines`: admins see every routine; a teacher sees the
      routines of the subjects they teach, or none without a profile; any
      other role is refused. */
  function ManageClassRoutines(u: User, routines: seq<ClassRoutine>, teachers: seq<Teacher>, subjects: seq<Subject>)
    : (r: Response<seq<ClassRoutine>>)
    ensures r.Allowed? <==> IsStaff(u)
    ensures !r.NotFound?
    ensures u.userType == AdminUser ==> r == Allowed(routines)
    ensures u.userType == TeacherUser ==> match TeacherOf(teachers, u.id)
      case None => r == Allowed([])
      case Some(t) => && (forall x :: x in r.value <==> x in routines && TeachesSubject(subjects, t.id, x.subject))
                      && forall x :: multiset(r.value)[x] == if TeachesSubject(subjects, t.id, x.subject) then multiset(routines)[x] else 0
  {
    if !IsStaff(u) then Forbidden
    else if u.userType == AdminUser then Allowed(routines)
    else match TeacherOf(teachers, u.id)
      case None => Allowed([])
      case Some(t) => Allowed(Filter(routines, (x: ClassRoutine) => TeachesSubject(subjects, t.id, x.subject)))
  }

  // ---------------------------------------------------------------- gallery

  /** `gallery`: the active images, newest first, of the selected category,
      or of every category when the selection is `all` (the default). */
  function GalleryView(images: seq<Gallery>, category: string): (r: seq<Gallery>)
    ensures SortedDesc(r, GalleryUploaded)
    ensures forall g :: g in r <==> g in images && g.isActive && (category == "all" || CategoryKey(g.category) == category)
    ensures forall g :: multiset(r)[g] == (if g.isActive && (category == "all" || CategoryKey(g.category) == category)
                                           then multiset(images)[g] else 0)
  {
    FilterSorted(images, (g: Gallery) => g.isActive && (category == "all" || CategoryKey(g.category) == category),
                 GalleryUploaded)
  }

  /** A category that is neither `all` nor one of the choices shows nothing;
      hidden images are never shown. */
  lemma GalleryUnknownCategory(images: seq<Gallery>, category: string)
    requires category != "all" && forall c: GalleryCategory :: CategoryKey(c) != category
    ensures forall g :: g !in GalleryView(images, category)
  {
  }

  // ---------------------------------------------------------------- contact_messages

  /** `contact_messages` for staff: `unread`, `read` and `responded` select
      by flag; any other status, `all` included, shows every message;
      messages are newest first. */
  function ContactMessages(u: User, contacts: seq<Contact>, status: string): (r: Response<seq<Contact>>)
    ensures r.Allowed? <==> IsStaff(u)
    ensures !r.NotFound?
    ensures r.Allowed? ==> SortedDesc(r.value, ContactSubmitted)
    ensures r.Allowed? ==> forall c :: c in r.value <==> c in contacts && StatusShows(status, c)
    ensures r.Allowed? ==> forall c :: multiset(r.value)[c] == if StatusShows(status, c) then multiset(contacts)[c] else 0
  {
    if !IsStaff(u) then Forbidden
    else
      Allowed(FilterSorted(contacts, (c: Contact) => StatusShows(status, c), ContactSubmitted))
  }

  /** Which messages a status filter keeps. */
  predicate StatusShows(status: string, c: Contact) {
    if status == "unread" then !c.isRead
    else if status == "read" then c.isRead
    else if status == "responded" then c.responded
    else true
  }

  /** An unrecognised status filter is no filter at all. */
  lemma ContactMessagesUnknownStatus(u: User, contacts: seq<Contact>, status: string)
    requires IsStaff(u) && status != "unread" && status != "read" && status != "responded"
    ensures multiset(ContactMessages(u, contacts, status).value) == multiset(contacts)
  {
    var newest := SortDesc(contacts, ContactSubmitted);
    FilterKeepsAll(newest, (c: Contact) => StatusShows(status, c));
    assert ContactMessages(u, contacts, status).value == Filter(newest, (c: Contact) => StatusShows(status, c));
  }

  /** `unread` and `read` split the messages between them. */
  lemma ReadAndUnreadPartition(u: User, contacts: seq<Contact>)
    requires IsStaff(u)
    ensures var unread := ContactMessages(u, contacts, "unread").value;
      var read := ContactMessages(u, contacts, "read").value;
      forall c :: c in contacts <==> (c in unread) != (c in read)
  {
  }

  // ---------------------------------------------------------------- role summary

  /** The parent role is refused by every staff page and by online admission,
      but falls into the catch-all branch of results, attendance and fees and
      so sees every row of those tables. */
  lemma ParentAccess(u: User, db: Store, status: string)
    requires u.userType == ParentUser
    ensures StudentManagement(u, db.students) == Forbidden
    ensures TeacherManagement(u, db.teachers) == Forbidden
    ensures OnlineAdmission(u) == Forbidden
    ensures ManageClassRoutines(u, db.routines, db.teachers, db.subjects) == Forbidden
    ensures ContactMessages(u, db.contacts, status) == Forbidden
    ensures ResultsView(u, db.results, db.students, db.teachers, db.subjects) == db.results
    ensures AttendanceView(u, db.attendance, db.students, db.teachers, db.classes) == db.attendance
    ensures FeesView(u, db.fees, db.students) == Allowed(db.fees)
  {
  }

  // ---------------------------------------------------------------- contact message changes

  /** A view's answer together with the table as the view leaves it. */
  datatype Viewed<R, T> = Viewed(table: seq<R>, response: Response<T>)

  predicate ContactHasId(c: Contact, id: nat) { c.id == id }

  /** `message.save()` after changing it in memory: the row with that
      primary key takes the changed values. */
  function UpdateContact(cs: seq<Contact>, id: nat, change: Contact -> Contact): (r: seq<Contact>)
    ensures |r| == |cs|
    ensures forall i :: 0 <= i < |cs| ==> r[i] == if cs[i].id == id then change(cs[i]) else cs[i]
  {
    if cs == [] then []
    else [if cs[0].id == id then change(cs[0]) else cs[0]] + UpdateContact(cs[1..], id, change)
  }

  function MarkRead(c: Contact): Contact { c.(isRead := true) }
  function MarkResponded(c: Contact): Contact { c.(responded := true) }

  /** Changing a row that keeps its id changes what a lookup by that id finds in the same way. */
  lemma {:induction false} FindAfterUpdate(cs: seq<Contact>, id: nat, change: Contact -> Contact)
    requires forall c :: change(c).id == c.id
    requires Find(cs, id, ContactHasId).Some?
    ensures Find(UpdateContact(cs, id, change), id, ContactHasId) == Some(change(Find(cs, id, ContactHasId).value))
  {
    if cs[0].id != id {
      FindAfterUpdate(cs[1..], id, change);
    }
  }

  /** `contact_message_detail`: staff only, 404 for an unknown id; an unread
      message is marked read and saved before it is shown. */
  function ContactDetailSpec(u: User, cs: seq<Contact>, id: nat): Viewed<Contact, Contact> {
    if !IsStaff(u) then Viewed(cs, Forbidden)
    else match Find(cs, id, ContactHasId)
      case None => Viewed(cs, NotFound)
      case Some(m) =>
        if m.isRead then Viewed(cs, Allowed(m))
        else Viewed(UpdateContact(cs, id, MarkRead), Allowed(MarkRead(m)))
  }

  method ContactMessageDetail(s: Store, u: User, id: nat) returns (r: Response<Contact>)
    requires s.Valid()
    modifies s`contacts
    ensures Viewed(s.contacts, r) == ContactDetailSpec(u, old(s.contacts), id)
    ensures s.Valid()
  {
    ContactDetailKeepsKeys(u, s.contacts, id);
    if !IsStaff(u) {
      return Forbidden;
    }
    var found := Find(s.contacts, id, ContactHasId);
    if found.None? {
      return NotFound;
    }
    var message := found.value;
    if !message.isRead {
      message := MarkRead(message);
      s.contacts := UpdateContact(s.contacts, id, MarkRead);
    }
    return Allowed(message);
  }

  /** Viewing a message shows it read with its responded flag as it was,
      and the stored message is read afterwards; a refused or unknown
      request changes nothing. */
  lemma ContactDetailMarksRead(u: User, cs: seq<Contact>, id: nat)
    ensures var v := ContactDetailSpec(u, cs, id);
      && (v.response.Allowed? <==> IsStaff(u) && exists c :: c in cs && c.id == id)
      && (!v.response.Allowed? ==> v.table == cs)
      && (v.response.Allowed? ==> && v.response.value.isRead && v.response.value.id == id
                                  && v.response.value.responded == Find(cs, id, ContactHasId).value.responded
                                  && Find(v.table, id, ContactHasId) == Some(v.response.value))
  {
    if IsStaff(u) && Find(cs, id, ContactHasId).Some? && !Find(cs, id, ContactHasId).value.isRead {
      FindAfterUpdate(cs, id, MarkRead);
    }
  }

  /** Viewing a message changes no other message and no responded flag. */
  lemma ContactDetailKeepsOthers(u: User, cs: seq<Contact>, id: nat)
    ensures var v := ContactDetailSpec(u, cs, id);
      && |v.table| == |cs|
      && (forall i :: 0 <= i < |cs| ==> v.table[i].responded == cs[i].responded && v.table[i].id == cs[i].id)
      && (forall i :: 0 <= i < |cs| && cs[i].id != id ==> v.table[i] == cs[i])
  {
  }

  /** Opening a message a second time changes nothing and shows the same page. */
  lemma ContactDetailIdempotent(u: User, cs: seq<Contact>, id: nat)
    ensures var v := ContactDetailSpec(u, cs, id);
      ContactDetailSpec(u, v.table, id) == v
  {
    if IsStaff(u) && Find(cs, id, ContactHasId).Some? && !Find(cs, id, ContactHasId).value.isRead {
      FindAfterUpdate(cs, id, MarkRead);
    }
  }

  /** `mark_contact_responded`: staff only, 404 for an unknown id; only a POST
      sets the responded flag; a GET just sends the caller to the message. */
  function MarkRespondedSpec(u: User, cs: seq<Contact>, id: nat, m: HttpMethod): Viewed<Contact, ()> {
    if !IsStaff(u) then Viewed(cs, Forbidden)
    else match Find(cs, id, ContactHasId)
      case None => Viewed(cs, NotFound)
      case Some(_) =>
        if m == Post then Viewed(UpdateContact(cs, id, MarkResponded), Allowed(()))
        else Viewed(cs, Allowed(()))
  }

  method MarkContactResponded(s: Store, u: User, id: nat, m: HttpMethod) returns (r: Response<()>)
    requires s.Valid()
    modifies s`contacts
    ensures Viewed(s.contacts, r) == MarkRespondedSpec(u, old(s.contacts), id, m)
    ensures s.Valid()
  {
    MarkRespondedKeepsKeys(u, s.contacts, id, m);
    if !IsStaff(u) {
      return Forbidden;
    }
    var found := Find(s.contacts, id, ContactHasId);
    if found.None? {
      return NotFound;
    }
    if m == Post {
      s.contacts := UpdateContact(s.contacts, id, MarkResponded);
    }
    return Allowed(());
  }

  /** Only a staff POST for an existing message changes anything, and then only
      the responded flag of that message; the read flag is left alone. */
  lemma MarkRespondedOnlyOnPost(u: User, cs: seq<Contact>, id: nat, m: HttpMethod)
    ensures var v := MarkRespondedSpec(u, cs, id, m);
      && |v.table| == |cs|
      && (v.table != cs ==> IsStaff(u) && m == Post)
      && (forall i :: 0 <= i < |cs| ==> v.table[i].isRead == cs[i].isRead && v.table[i].id == cs[i].id)
      && (forall i :: 0 <= i < |cs| && cs[i].id != id ==> v.table[i] == cs[i])
      && (v.response.Allowed? && m == Post ==> forall i :: 0 <= i < |cs| && cs[i].id == id ==> v.table[i].responded)
  {
  }

  /** `delete_contact_message`: staff only, 404 for an unknown id; only a POST
      deletes, and it deletes the row with that primary key. */
  function DeleteContactSpec(u: User, cs: seq<Contact>, id: nat, m: HttpMethod): Viewed<Contact, Contact> {
    if !IsStaff(u) then Viewed(cs, Forbidden)
    else match Find(cs, id, ContactHasId)
      case None => Viewed(cs, NotFound)
      case Some(c) =>
        if m == Post then Viewed(Filter(cs, (x: Contact) => x.id != id), Allowed(c))
        else Viewed(cs, Allowed(c))
  }

  method DeleteContactMessage(s: Store, u: User, id: nat, m: HttpMethod) returns (r: Response<Contact>)
    requires s.Valid()
    modifies s`contacts
    ensures Viewed(s.contacts, r) == DeleteContactSpec(u, old(s.contacts), id, m)
    ensures s.Valid()
  {
    DeleteContactRemovesOne(u, s.contacts, id, m);
    if !IsStaff(u) {
      return Forbidden;
    }
    var found := Find(s.contacts, id, ContactHasId);
    if found.None? {
      return NotFound;
    }
    if m == Post {
      s.contacts := Filter(s.contacts, (x: Contact) => x.id != id);
    }
    return Allowed(found.value);
  }

  /** A staff POST removes that message and keeps every other one; anything
      else leaves the messages as they were. The id stays unique. */
  lemma DeleteContactRemovesOne(u: User, cs: seq<Contact>, id: nat, m: HttpMethod)
    requires UniqueBy(cs, ContactPk)
    ensures var v := DeleteContactSpec(u, cs, id, m);
      && UniqueBy(v.table, ContactPk)
      && (v.response.Allowed? && m == Post ==> forall c :: c in v.table <==> c in cs && c.id != id)
      && (!(v.response.Allowed? && m == Post) ==> v.table == cs)
  {
    FilterKeepsUnique(cs, (x: Contact) => x.id != id, ContactPk);
  }

  /** Opening a message keeps message keys unique: it only sets a read flag. */
  lemma ContactDetailKeepsKeys(u: User, cs: seq<Contact>, id: nat)
    requires UniqueBy(cs, ContactPk)
    ensures UniqueBy(ContactDetailSpec(u, cs, id).table, ContactPk)
  {
    ContactDetailKeepsOthers(u, cs, id);
    SameKeysKeepUnique(cs, ContactDetailSpec(u, cs, id).table, ContactPk);
  }

  /** Marking a message responded keeps message keys unique. */
  lemma MarkRespondedKeepsKeys(u: User, cs: seq<Contact>, id: nat, m: HttpMethod)
    requires UniqueBy(cs, ContactPk)
    ensures UniqueBy(MarkRespondedSpec(u, cs, id, m).table, ContactPk)
  {
    MarkRespondedOnlyOnPost(u, cs, id, m);
    SameKeysKeepUnique(cs, MarkRespondedSpec(u, cs, id, m).table, ContactPk);
  }

  // ---------------------------------------------------------------- routine edits and deletions

  predicate RoutineHasId(r: ClassRoutine, id: nat) { r.id == id }

  /** The teacher of a routine's subject (`routine.subject.teacher`). */
  function RoutineOwner(subjects: seq<Subject>, r: ClassRoutine): (t: Option<nat>)
    ensures t.Some? ==> exists sb :: sb in subjects && sb.id == r.subject && sb.teacher == t.value
    ensures t.None? ==> forall sb :: sb in subjects ==> sb.id != r.subject
  {
    match Find(subjects, r.subject, SubjectHasId)
    case None => None
    case Some(sb) => Some(sb.teacher)
  }

  /** The checks `edit_class_routine` and `delete_class_routine` make before
      acting: the role first, then the routine's existence, then, for a
      teacher, that their profile exists and teaches the routine's subject. */
  function RoutineAccess(u: User, routines: seq<ClassRoutine>, teachers: seq<Teacher>, subjects: seq<Subject>, id: nat)
    : (r: Response<ClassRoutine>)
    ensures !IsStaff(u) ==> r.Forbidden?
    ensures IsStaff(u) && Find(routines, id, RoutineHasId).None? ==> r.NotFound?
    ensures r.NotFound? ==> forall x :: x in routines ==> x.id != id
    ensures r.Allowed? ==> IsStaff(u) && Find(routines, id, RoutineHasId) == Some(r.value) && r.value.id == id
    ensures u.userType == AdminUser && Find(routines, id, RoutineHasId).Some? ==> r.Allowed?
    ensures r.Allowed? && u.userType == TeacherUser ==>
      TeacherOf(teachers, u.id).Some? && RoutineOwner(subjects, r.value) == Some(TeacherOf(teachers, u.id).value.id)
    ensures u.userType == TeacherUser && Find(routines, id, RoutineHasId).Some? ==>
      (r.Allowed? <==> TeacherOf(teachers, u.id).Some?
                       && RoutineOwner(subjects, Find(routines, id, RoutineHasId).value) == Some(TeacherOf(teachers, u.id).value.id))
  {
    if !IsStaff(u) then Forbidden
    else match Find(routines, id, RoutineHasId)
      case None => NotFound
      case Some(routine) =>
        if u.userType == AdminUser then Allowed(routine)
        else match TeacherOf(teachers, u.id)
          case None => Forbidden
          case Some(t) => if RoutineOwner(subjects, routine) == Some(t.id) then Allowed(routine) else Forbidden
  }

  /** The cleaned `ClassRoutineForm`: every column but the primary key. */
  datatype RoutineFields = RoutineFields(classId: nat, day: Day, subject: nat, startTime: TimeOfDay, endTime: TimeOfDay)

  function WithFields(r: ClassRoutine, f: RoutineFields): ClassRoutine {
    ClassRoutine(r.id, f.classId, f.day, f.subject, f.startTime, f.endTime)
  }

  /** The routines after `form.save()` on routine `id`. */
  function ReplaceRoutine(routines: seq<ClassRoutine>, id: nat, f: RoutineFields): (r: seq<ClassRoutine>)
    ensures |r| == |routines|
    ensures forall i :: 0 <= i < |r| ==> r[i] == if routines[i].id == id then WithFields(routines[i], f) else routines[i]
  {
    seq(|routines|, i requires 0 <= i < |routines| =>
      if routines[i].id == id then WithFields(routines[i], f) else routines[i])
  }

  /** `edit_class_routine`: after the access checks, a POST with a valid form
      (`form` present) saves the new values; anything else only shows the form. */
  function EditRoutineSpec(u: User, routines: seq<ClassRoutine>, teachers: seq<Teacher>, subjects: seq<Subject>,
                           id: nat, m: HttpMethod, form: Option<RoutineFields>): Viewed<ClassRoutine, ClassRoutine>
  {
    match RoutineAccess(u, routines, teachers, subjects, id)
    case Forbidden => Viewed(routines, Forbidden)
    case NotFound => Viewed(routines, NotFound)
    case Allowed(routine) =>
      if m == Post && form.Some? then Viewed(ReplaceRoutine(routines, id, form.value), Allowed(WithFields(routine, form.value)))
      else Viewed(routines, Allowed(routine))
  }

  method EditClassRoutine(s: Store, u: User, id: nat, m: HttpMethod, form: Option<RoutineFields>)
    returns (r: Response<ClassRoutine>)
    requires s.Valid()
    modifies s`routines
    ensures Viewed(s.routines, r) == EditRoutineSpec(u, old(s.routines), s.teachers, s.subjects, id, m, form)
    ensures s.Valid()
  {
    EditRoutineKeepsKeys(u, s.routines, s.teachers, s.subjects, id, m, form);
    var access := RoutineAccess(u, s.routines, s.teachers, s.subjects, id);
    if !access.Allowed? {
      return if access.Forbidden? then Forbidden else NotFound;
    }
    var routine := access.value;
    if m == Post && form.Some? {
      routine := WithFields(routine, form.value);
      s.routines := ReplaceRoutine(s.routines, id, form.value);
    }
    return Allowed(routine);
  }

  /** `delete_class_routine`: after the access checks, only a POST deletes. */
  function DeleteRoutineSpec(u: User, routines: seq<ClassRoutine>, teachers: seq<Teacher>, subjects: seq<Subject>,
                             id: nat, m: HttpMethod): Viewed<ClassRoutine, ClassRoutine>
  {
    match RoutineAccess(u, routines, teachers, subjects, id)
    case Forbidden => Viewed(routines, Forbidden)
    case NotFound => Viewed(routines, NotFound)
    case Allowed(routine) =>
      if m == Post then Viewed(Filter(routines, (x: ClassRoutine) => x.id != id), Allowed(routine))
      else Viewed(routines, Allowed(routine))
  }

  method DeleteClassRoutine(s: Store, u: User, id: nat, m: HttpMethod) returns (r: Response<ClassRoutine>)
    requires s.Valid()
    modifies s`routines
    ensures Viewed(s.routines, r) == DeleteRoutineSpec(u, old(s.routines), s.teachers, s.subjects, id, m)
    ensures s.Valid()
  {
    DeleteRoutineKeepsKeys(u, s.routines, s.teachers, s.subjects, id, m);
    var access := RoutineAccess(u, s.routines, s.teachers, s.subjects, id);
    if !access.Allowed? {
      return if access.Forbidden? then Forbidden else NotFound;
    }
    if m == Post {
      s.routines := Filter(s.routines, (x: ClassRoutine) => x.id != id);
    }
    return Allowed(access.value);
  }

  /** Editing a routine keeps routine keys unique: the edit keeps every id. */
  lemma EditRoutineKeepsKeys(u: User, routines: seq<ClassRoutine>, teachers: seq<Teacher>, subjects: seq<Subject>,
                             id: nat, m: HttpMethod, form: Option<RoutineFields>)
    requires UniqueBy(routines, RoutinePk)
    ensures UniqueBy(EditRoutineSpec(u, routines, teachers, subjects, id, m, form).table, RoutinePk)
  {
    if form.Some? {
      SameKeysKeepUnique(routines, ReplaceRoutine(routines, id, form.value), RoutinePk);
    }
  }

  /** Deleting a routine keeps routine keys unique. */
  lemma DeleteRoutineKeepsKeys(u: User, routines: seq<ClassRoutine>, teachers: seq<Teacher>, subjects: seq<Subject>,
                               id: nat, m: HttpMethod)
    requires UniqueBy(routines, RoutinePk)
    ensures UniqueBy(DeleteRoutineSpec(u, routines, teachers, subjects, id, m).table, RoutinePk)
  {
    FilterKeepsUnique(routines, (x: ClassRoutine) => x.id != id, RoutinePk);
  }

  /** A teacher who does not teach a routine's subject, or who has no teacher
      profile, can neither edit nor delete it, and neither can a student or
      parent: the routines stay as they were. */
  lemma RoutineChangesNeedOwner(u: User, routines: seq<ClassRoutine>, teachers: seq<Teacher>, subjects: seq<Subject>,
                                id: nat, m: HttpMethod, form: Option<RoutineFields>)
    requires Find(routines, id, RoutineHasId).Some?
    requires u.userType == TeacherUser ==>
      (TeacherOf(teachers, u.id).None?
       || RoutineOwner(subjects, Find(routines, id, RoutineHasId).value) != Some(TeacherOf(teachers, u.id).value.id))
    requires u.userType != AdminUser
    ensures EditRoutineSpec(u, routines, teachers, subjects, id, m, form) == Viewed(routines, Forbidden)
    ensures DeleteRoutineSpec(u, routines, teachers, subjects, id, m) == Viewed(routines, Forbidden)
  {
  }

  /** Whoever passes the checks, only a POST removes the routine, and it
      removes exactly that routine. */
  lemma DeleteRoutineOnlyOnPost(u: User, routines: seq<ClassRoutine>, teachers: seq<Teacher>, subjects: seq<Subject>,
                                id: nat, m: HttpMethod)
    ensures var v := DeleteRoutineSpec(u, routines, teachers, subjects, id, m);
      && (m == Get || !v.response.Allowed? ==> v.table == routines)
      && (m == Post && v.response.Allowed? ==> forall x :: x in v.table <==> x in routines && x.id != id)
      && (v.table != routines ==> m == Post && v.response.Allowed?)
  {
  }

  /** On POST the subject is not limited to the teacher's own subjects (that
      restriction is applied to the form only on GET), so a teacher who may
      edit a routine can hand it to a subject somebody else teaches. */
  lemma EditMayReassignSubject(u: User, routines: seq<ClassRoutine>, teachers: seq<Teacher>, subjects: seq<Subject>,
                               id: nat, f: RoutineFields)
    requires RoutineAccess(u, routines, teachers, subjects, id).Allowed?
    ensures var v := EditRoutineSpec(u, routines, teachers, subjects, id, Post, Some(f));
      v.response.Allowed? && v.response.value.subject == f.subject
      && forall i :: 0 <= i < |routines| && routines[i].id == id ==> v.table[i].subject == f.subject
  {
  }

  // ---------------------------------------------------------------- delete_gallery_image

  predicate ImageHasId(g: Gallery, id: nat) { g.id == id }

  /** `delete_gallery_image`: staff only, 404 for an unknown id, then an image
      may be deleted by the user who uploaded it or by an admin; only a POST deletes. */
  function DeleteImageSpec(u: User, images: seq<Gallery>, id: nat, m: HttpMethod): Viewed<Gallery, Gallery> {
    if !IsStaff(u) then Viewed(images, Forbidden)
    else match Find(images, id, ImageHasId)
      case None => Viewed(images, NotFound)
      case Some(image) =>
        if image.uploadedBy != u.id && u.userType != AdminUser then Viewed(images, Forbidden)
        else if m == Post then Viewed(Filter(images, (g: Gallery) => g.id != id), Allowed(image))
        else Viewed(images, Allowed(image))
  }

  method DeleteGalleryImage(s: Store, u: User, id: nat, m: HttpMethod) returns (r: Response<Gallery>)
    requires s.Valid()
    modifies s`gallery
    ensures Viewed(s.gallery, r) == DeleteImageSpec(u, old(s.gallery), id, m)
    ensures s.Valid()
  {
    DeleteImageKeepsKeys(u, s.gallery, id, m);
    if !IsStaff(u) {
      return Forbidden;
    }
    var found := Find(s.gallery, id, ImageHasId);
    if found.None? {
      return NotFound;
    }
    var image := found.value;
    if image.uploadedBy != u.id && u.userType != AdminUser {
      return Forbidden;
    }
    if m == Post {
      s.gallery := Filter(s.gallery, (g: Gallery) => g.id != id);
    }
    return Allowed(image);
  }

  /** Deleting an image keeps image keys unique. */
  lemma DeleteImageKeepsKeys(u: User, images: seq<Gallery>, id: nat, m: HttpMethod)
    requires UniqueBy(images, GalleryPk)
    ensures UniqueBy(DeleteImageSpec(u, images, id, m).table, GalleryPk)
  {
    FilterKeepsUnique(images, (g: Gallery) => g.id != id, GalleryPk);
  }

  /** An admin may delete any image, a teacher only the images they uploaded,
      and nobody else any; the gallery changes only on such a POST. */
  lemma GalleryDeleteRules(u: User, images: seq<Gallery>, id: nat, m: HttpMethod)
    requires Find(images, id, ImageHasId).Some?
    ensures var v := DeleteImageSpec(u, images, id, m);
      var image := Find(images, id, ImageHasId).value;
      && (v.response.Allowed? <==> u.userType == AdminUser || (u.userType == TeacherUser && image.uploadedBy == u.id))
      && (v.table != images ==> m == Post && v.response.Allowed?)
      && (m == Post && v.response.Allowed? ==> forall g :: g in v.table <==> g in images && g.id != id)
  {
  }
}
