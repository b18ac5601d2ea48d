/** The sample-data script: three classes, three teachers (a user account and
    a Teacher profile each) and one subject per class and teacher, every row
    obtained with `get_or_create` so that the script can be run again. */
module CreateSampleData {
  import opened Common
  import opened Tables
  import opened Text
  import opened AccountsModels
  import opened SchoolModels
  import opened GetOrCreate
  import opened CreateClasses

  // ---------------------------------------------------------------- classes

  /** The classes the script asks for: `f"Class {i}"`, section A, for i in 1..3. */
  const SampleClassKeys: seq<ClassKey> := seq(3, i requires 0 <= i => ("Class " + DecimalString(i + 1), "A"))

  // ---------------------------------------------------------------- teachers

  /** One entry of `teachers_data`. */
  datatype TeacherSeed = TeacherSeed(username: string, subject: string, firstName: string, lastName: string)

  const TeachersData: seq<TeacherSeed> := [
    TeacherSeed("math_teacher", "Mathematics", "John", "Smith"),
    TeacherSeed("science_teacher", "Science", "Sarah", "Johnson"),
    TeacherSeed("english_teacher", "English", "Emily", "Brown")
  ]

  const SamplePassword := "password123"
  const SampleQualification := "Masters"

  /** The user lookup matches on `username` only. */
  function UserMatches(u: User, d: TeacherSeed): bool {
    u.username == d.username
  }

  /** The user `get_or_create` inserts: the defaults given, role teacher,
      `<username>@school.com`, and the password set right after creation. */
  function MakeTeacherUser(id: nat, d: TeacherSeed): (u: User)
    ensures u.id == id && u.username == d.username && u.userType == TeacherUser
    ensures u.email == d.username + "@school.com" && u.password == Some(SamplePassword)
    ensures u.firstName == d.firstName && u.lastName == d.lastName && u.phone == "" && u.address == ""
  {
    NewUser(id, d.username, Some(TeacherUser), d.firstName, d.lastName,
            d.username + "@school.com", "", Some(SamplePassword))
  }

  /** The teacher lookup matches on the one-to-one `user` link. */
  function TeacherOfUser(t: Teacher, userId: nat): bool {
    t.user == userId
  }

  /** `f'TCH{user.id:04d}'`: `TCH`, then at least four characters (the
      digits, in TchIdValue). */
  function TchId(userId: nat): (r: string)
    ensures |r| >= 7 && r[..3] == "TCH"
  {
    var digits := ZeroPad(DecimalString(userId), 4);
    ZeroPadValue(DecimalString(userId), 4);
    "TCH" + digits
  }

  /** After `TCH` come only digits, and they read back as the user id. */
  lemma TchIdValue(userId: nat)
    ensures IsDigitString(TchId(userId)[3..]) && DigitsValue(TchId(userId)[3..]) == userId
  {
    var digits := ZeroPad(DecimalString(userId), 4);
    ZeroPadValue(DecimalString(userId), 4);
    DecimalStringValue(userId);
    assert TchId(userId)[3..] == digits;
  }

  /** `{:04d}` pads to four digits and no further: ids below 10000 give seven
      characters, larger ids are written out in full without a leading zero,
      and an id below 100000 is never as long as a registered `TCH` id. */
  lemma TchIdWidth(userId: nat)
    ensures |TchId(userId)| == 3 + (if |DecimalString(userId)| < 4 then 4 else |DecimalString(userId)|)
    ensures |TchId(userId)| == 7 <==> userId < 10000
    ensures userId >= 1000 ==> TchId(userId)[3..] == DecimalString(userId)
    ensures userId >= 10000 ==> TchId(userId)[3] != '0'
    ensures userId < 100000 ==> |TchId(userId)| <= 8
  {
    DecimalStringFits(userId, 3);
    DecimalStringFits(userId, 4);
    DecimalStringFits(userId, 5);
    assert Pow10(3) == 1000 && Pow10(4) == 10000 && Pow10(5) == 100000;
    assert TchId(userId)[3..] == ZeroPad(DecimalString(userId), 4);
  }

  /** Different users get different teacher ids. */
  lemma TchIdInjective(a: nat, b: nat)
    requires TchId(a) == TchId(b)
    ensures a == b
  {
    TchIdValue(a);
    TchIdValue(b);
  }

  /** The teacher the script inserts for `user`: id from the user id, qualification
      "Masters", specialization the subject, the other fields at their defaults. */
  function MakeSampleTeacher(id: nat, userId: nat, d: TeacherSeed, today: Date): (t: Teacher)
    ensures t.id == id && t.user == userId && t.teacherId == TchId(userId)
    ensures t.qualification == SampleQualification && t.specialization == d.subject
  {
    NewTeacher(id, userId, TchId(userId),
               TeacherInit(None, None, Some(SampleQualification), Some(d.subject), None), today)
  }

  /** The state of the teacher loop: the User and Teacher tables, the
      `teachers` list so far, and whether an insert was refused (the script
      then stops with the exception; rows written before stay). */
  datatype Staffing = Staffing(users: seq<User>, teachers: seq<Teacher>, obtained: seq<Teacher>, failed: bool)

  /** `Teacher.objects.get_or_create(user=user, defaults=...)`: the user's
      first profile if there is one, otherwise a new profile, which the
      database refuses when its id is already taken. */
  function GetOrCreateTeacher(ts: seq<Teacher>, userId: nat, d: TeacherSeed, today: Date): (r: Outcome<Got<Teacher>>)
    ensures r.Ok? && !r.value.created ==> r.value.table == ts && Find(ts, userId, TeacherOfUser) == Some(r.value.obj)
    ensures r.Ok? && r.value.created ==>
      && Find(ts, userId, TeacherOfUser).None?
      && r.value.obj == MakeSampleTeacher(NextId(ts, TeacherPk), userId, d, today)
      && r.value.table == ts + [r.value.obj]
    ensures r.Err? ==> Find(ts, userId, TeacherOfUser).None? && r.error == IntegrityError
  {
    match Find(ts, userId, TeacherOfUser)
    case Some(t) => Ok(Got(ts, t, false))
    case None =>
      var t := MakeSampleTeacher(NextId(ts, TeacherPk), userId, d, today);
      match InsertTeacher(ts, t)
      case Ok(ts') => Ok(Got(ts', t, true))
      case Err(e) => Err(e)
  }

  /** The profile lookup fails exactly when the user has no profile yet and
      another profile already holds the id `TCH<user id>`. */
  lemma GetOrCreateTeacherFails(ts: seq<Teacher>, userId: nat, d: TeacherSeed, today: Date)
    ensures GetOrCreateTeacher(ts, userId, d, today).Err? <==>
      Find(ts, userId, TeacherOfUser).None? && exists i :: 0 <= i < |ts| && ts[i].teacherId == TchId(userId)
  {
    if Find(ts, userId, TeacherOfUser).None? {
      var t := MakeSampleTeacher(NextId(ts, TeacherPk), userId, d, today);
      if InsertTeacher(ts, t).Err? {
        var x :| x in ts && !(x.id != t.id && x.user != t.user && x.teacherId != t.teacherId);
        var i :| 0 <= i < |ts| && ts[i] == x;
      } else {
        forall i | 0 <= i < |ts| ensures ts[i].teacherId != TchId(userId) {
          assert ts[i] in ts;
        }
      }
    }
  }

  /** The profile lookup keeps the Teacher constraints. */
  lemma GetOrCreateTeacherKeepsValid(ts: seq<Teacher>, userId: nat, d: TeacherSeed, today: Date)
    requires TeachersValid(ts)
    ensures var r := GetOrCreateTeacher(ts, userId, d, today); r.Ok? ==> TeachersValid(r.value.table)
  {
    if Find(ts, userId, TeacherOfUser).None? {
      InsertTeacherKeepsValid(ts, MakeSampleTeacher(NextId(ts, TeacherPk), userId, d, today));
    }
  }

  /** The user lookup keeps the User constraints. */
  lemma GetOrCreateUserKeepsValid(us: seq<User>, d: TeacherSeed)
    requires UsersValid(us)
    ensures UsersValid(GetOrCreateRow(us, d, UserMatches, MakeTeacherUser, UserPk).table)
  {
    RunKeepsUniqueIds(Batch(us, [], 0), [d], UserMatches, MakeTeacherUser, UserPk);
    RunKeepsUniqueKey(Batch(us, [], 0), [d], UserMatches, MakeTeacherUser, UserPk, UserName);
    assert [d][1..] == [];
  }

  /** One iteration of the teacher loop: the user, then its profile; a
      refused profile insert stops the loop, the user row stays. */
  function TeacherStep(st: Staffing, d: TeacherSeed, today: Date): (r: Staffing)
    ensures st.failed ==> r == st
    ensures !r.failed ==> !st.failed && |r.obtained| == |st.obtained| + 1 && r.obtained[..|st.obtained|] == st.obtained
    ensures r.failed && !st.failed ==> r.obtained == st.obtained
    ensures |st.users| <= |r.users| && r.users[..|st.users|] == st.users
    ensures |st.teachers| <= |r.teachers| && r.teachers[..|st.teachers|] == st.teachers
  {
    if st.failed then st
    else
      var g := GetOrCreateRow(st.users, d, UserMatches, MakeTeacherUser, UserPk);
      match GetOrCreateTeacher(st.teachers, g.obj.id, d, today)
      case Ok(tg) => Staffing(g.table, tg.table, st.obtained + [tg.obj], false)
      case Err(_) => Staffing(g.table, st.teachers, st.obtained, true)
  }

  /** The teacher loop over a list of entries. */
  function TeachersRun(st: Staffing, ds: seq<TeacherSeed>, today: Date): (r: Staffing)
    ensures !r.failed ==> !st.failed && |r.obtained| == |st.obtained| + |ds|
    decreases |ds|
  {
    if ds == [] then st else TeachersRun(TeacherStep(st, ds[0], today), ds[1..], today)
  }

  /** The user `d` names exists and its first Teacher profile is `t`. */
  ghost predicate StaffedBy(users: seq<User>, teachers: seq<Teacher>, d: TeacherSeed, t: Teacher) {
    match Find(users, d, UserMatches)
    case Some(u) => Find(teachers, u.id, TeacherOfUser) == Some(t)
    case None => false
  }

  /** A step keeps the User and Teacher constraints. */
  lemma TeacherStepKeepsValid(st: Staffing, d: TeacherSeed, today: Date)
    requires UsersValid(st.users) && TeachersValid(st.teachers)
    ensures var r := TeacherStep(st, d, today); UsersValid(r.users) && TeachersValid(r.teachers)
  {
    if !st.failed {
      GetOrCreateUserKeepsValid(st.users, d);
      var g := GetOrCreateRow(st.users, d, UserMatches, MakeTeacherUser, UserPk);
      GetOrCreateTeacherKeepsValid(st.teachers, g.obj.id, d, today);
    }
  }

  /** The teacher loop keeps the User and Teacher constraints. */
  lemma {:induction false} TeachersRunKeepsValid(st: Staffing, ds: seq<TeacherSeed>, today: Date)
    requires UsersValid(st.users) && TeachersValid(st.teachers)
    ensures var r := TeachersRun(st, ds, today); UsersValid(r.users) && TeachersValid(r.teachers)
    decreases |ds|
  {
    if ds != [] {
      TeacherStepKeepsValid(st, ds[0], today);
      TeachersRunKeepsValid(TeacherStep(st, ds[0], today), ds[1..], today);
    }
  }

  /** The loop only appends to the two tables and to the list. */
  lemma {:induction false} TeachersRunAppends(st: Staffing, ds: seq<TeacherSeed>, today: Date)
    ensures var r := TeachersRun(st, ds, today);
      && |st.users| <= |r.users| && r.users[..|st.users|] == st.users
      && |st.teachers| <= |r.teachers| && r.teachers[..|st.teachers|] == st.teachers
      && |st.obtained| <= |r.obtained| && r.obtained[..|st.obtained|] == st.obtained
    decreases |ds|
  {
    if ds != [] {
      var s1 := TeacherStep(st, ds[0], today);
      TeachersRunAppends(s1, ds[1..], today);
      var r := TeachersRun(s1, ds[1..], today);
      assert r.users[..|st.users|] == r.users[..|s1.users|][..|st.users|];
      assert r.teachers[..|st.teachers|] == r.teachers[..|s1.teachers|][..|st.teachers|];
      assert r.obtained[..|st.obtained|] == r.obtained[..|s1.obtained|][..|st.obtained|];
    }
  }

  /** Appending rows keeps a user staffed by the same profile. */
  lemma StaffedByExtends(users: seq<User>, teachers: seq<Teacher>, users': seq<User>, teachers': seq<Teacher>,
                         d: TeacherSeed, t: Teacher)
    requires StaffedBy(users, teachers, d, t)
    requires |users| <= |users'| && users'[..|users|] == users
    requires |teachers| <= |teachers'| && teachers'[..|teachers|] == teachers
    ensures StaffedBy(users', teachers', d, t)
  {
    FindInLonger(users, users', d, UserMatches);
    var u := Find(users, d, UserMatches).value;
    FindInLonger(teachers, teachers', u.id, TeacherOfUser);
  }

  /** After a step that did not fail, the entry's user exists and its profile is the one obtained. */
  lemma TeacherStepStaffs(st: Staffing, d: TeacherSeed, today: Date)
    requires !TeacherStep(st, d, today).failed
    ensures var r := TeacherStep(st, d, today);
      StaffedBy(r.users, r.teachers, d, r.obtained[|r.obtained| - 1])
  {
    var r := TeacherStep(st, d, today);
    StepFinds(Batch(st.users, [], 0), d, UserMatches, MakeTeacherUser, UserPk);
    var g := GetOrCreateRow(st.users, d, UserMatches, MakeTeacherUser, UserPk);
    assert Find(r.users, d, UserMatches) == Some(g.obj);
    var tg := GetOrCreateTeacher(st.teachers, g.obj.id, d, today).value;
    if tg.created {
      FindAfterMisses(tg.table, |st.teachers|, g.obj.id, TeacherOfUser);
    }
  }

  /** After a loop that did not fail, every entry's user exists, and the
      profiles the loop collected are, in order, each one's Teacher profile. */
  lemma {:induction false} TeachersRunStaffs(st: Staffing, ds: seq<TeacherSeed>, today: Date, r: Staffing)
    requires r == TeachersRun(st, ds, today) && !r.failed
    ensures |r.obtained| == |st.obtained| + |ds| && AllStaffed(r.users, r.teachers, ds, r.obtained[|st.obtained|..])
    decreases |ds|
  {
    if ds == [] {
      assert r.obtained[|st.obtained|..] == [];
    } else {
      var s1 := FirstStep(st, ds, today, r);
      TeachersRunStaffs(s1, ds[1..], today, r);
      FirstEntryStaffed(st, ds, today, r);
      var n := |st.obtained|;
      AllStaffedCons(r.users, r.teachers, ds, r.obtained, n);
    }
  }

  /** The first step of a run `r` that did not fail obtains one profile,
      giving `s1`, and the run goes on from there. */
  lemma FirstStep(st: Staffing, ds: seq<TeacherSeed>, today: Date, r: Staffing) returns (s1: Staffing)
    requires ds != [] && r == TeachersRun(st, ds, today) && !r.failed
    ensures r == TeachersRun(s1, ds[1..], today) && |s1.obtained| == |st.obtained| + 1
  {
    s1 := TeacherStep(st, ds[0], today);
  }

  /** In a run `r` that did not fail, the first entry stays staffed by the
      profile its step obtained. */
  lemma FirstEntryStaffed(st: Staffing, ds: seq<TeacherSeed>, today: Date, r: Staffing)
    requires ds != [] && r == TeachersRun(st, ds, today) && !r.failed
    ensures |st.obtained| < |r.obtained| && StaffedBy(r.users, r.teachers, ds[0], r.obtained[|st.obtained|])
  {
    var s1 := TeacherStep(st, ds[0], today);
    assert TeachersRun(st, ds, today) == TeachersRun(s1, ds[1..], today);
    TeachersRunAppends(s1, ds[1..], today);
    TeacherStepStaffs(st, ds[0], today);
    var t := s1.obtained[|st.obtained|];
    StaffedByExtends(s1.users, s1.teachers, r.users, r.teachers, ds[0], t);
    assert r.obtained[|st.obtained|] == r.obtained[..|s1.obtained|][|st.obtained|];
  }

  /** A step for an entry that is already staffed changes nothing but the list. */
  lemma TeacherStepWhenStaffed(st: Staffing, d: TeacherSeed, today: Date, t: Teacher)
    requires !st.failed && StaffedBy(st.users, st.teachers, d, t)
    ensures TeacherStep(st, d, today) == Staffing(st.users, st.teachers, st.obtained + [t], false)
  {
  }

  /** Each entry's user exists and its first profile is the matching element of `ts`. */
  ghost predicate AllStaffed(users: seq<User>, teachers: seq<Teacher>, ds: seq<TeacherSeed>, ts: seq<Teacher>) {
    |ts| == |ds| && forall i :: 0 <= i < |ds| ==> StaffedBy(users, teachers, ds[i], ts[i])
  }

  /** A staffed first entry followed by staffed other entries. */
  lemma AllStaffedCons(users: seq<User>, teachers: seq<Teacher>, ds: seq<TeacherSeed>, ts: seq<Teacher>, n: nat)
    requires ds != [] && n < |ts| && StaffedBy(users, teachers, ds[0], ts[n])
    requires AllStaffed(users, teachers, ds[1..], ts[n + 1..])
    ensures AllStaffed(users, teachers, ds, ts[n..])
  {
    forall i | 0 <= i < |ds| ensures StaffedBy(users, teachers, ds[i], ts[n..][i]) {
      if i > 0 {
        assert ds[i] == ds[1..][i - 1] && ts[n..][i] == ts[n + 1..][i - 1];
      }
    }
  }

  lemma AllStaffedTail(users: seq<User>, teachers: seq<Teacher>, ds: seq<TeacherSeed>, ts: seq<Teacher>)
    requires AllStaffed(users, teachers, ds, ts) && ds != []
    ensures AllStaffed(users, teachers, ds[1..], ts[1..])
  {
    forall i | 0 <= i < |ds[1..]| ensures StaffedBy(users, teachers, ds[1..][i], ts[1..][i]) {
      assert ds[1..][i] == ds[i + 1] && ts[1..][i] == ts[i + 1];
    }
  }

  /** A loop over entries that are all staffed changes no table and collects their profiles. */
  lemma {:induction false} TeachersRunWhenStaffed(st: Staffing, ds: seq<TeacherSeed>, today: Date, ts: seq<Teacher>)
    requires !st.failed && AllStaffed(st.users, st.teachers, ds, ts)
    ensures TeachersRun(st, ds, today) == Staffing(st.users, st.teachers, st.obtained + ts, false)
    decreases |ds|
  {
    if ds != [] {
      var s1 := Staffing(st.users, st.teachers, st.obtained + [ts[0]], false);
      calc {
        TeachersRun(st, ds, today);
        TeachersRun(TeacherStep(st, ds[0], today), ds[1..], today);
        { assert StaffedBy(st.users, st.teachers, ds[0], ts[0]);
          TeacherStepWhenStaffed(st, ds[0], today, ts[0]); }
        TeachersRun(s1, ds[1..], today);
        { AllStaffedTail(st.users, st.teachers, ds, ts);
          TeachersRunWhenStaffed(s1, ds[1..], today, ts[1..]); }
        Staffing(st.users, st.teachers, st.obtained + [ts[0]] + ts[1..], false);
        { assert st.obtained + [ts[0]] + ts[1..] == st.obtained + ts; }
        Staffing(st.users, st.teachers, st.obtained + ts, false);
      }
    } else {
      assert st.obtained + ts == st.obtained;
    }
  }

  /** Running the teacher loop again after it succeeded changes nothing and
      collects the same profiles. */
  lemma TeachersRunTwice(users: seq<User>, teachers: seq<Teacher>, ds: seq<TeacherSeed>, today: Date)
    requires !TeachersRun(Staffing(users, teachers, [], false), ds, today).failed
    ensures var r := TeachersRun(Staffing(users, teachers, [], false), ds, today);
      TeachersRun(Staffing(r.users, r.teachers, [], false), ds, today) == r
  {
    var r := TeachersRun(Staffing(users, teachers, [], false), ds, today);
    TeachersRunStaffs(Staffing(users, teachers, [], false), ds, today, r);
    assert r.obtained[0..] == r.obtained;
    TeachersRunWhenStaffed(Staffing(r.users, r.teachers, [], false), ds, today, r.obtained);
    assert [] + r.obtained == r.obtained;
  }

  /** Every Teacher row has the id `TCH<user id>`, as the script makes them. */
  ghost predicate TchIdsFromUsers(ts: seq<Teacher>) {
    forall i :: 0 <= i < |ts| ==> ts[i].teacherId == TchId(ts[i].user)
  }

  /** When every existing profile follows the script's id scheme, the loop
      never fails and the scheme still holds afterwards. */
  lemma {:induction false} TeachersRunNeverFails(st: Staffing, ds: seq<TeacherSeed>, today: Date)
    requires !st.failed && TchIdsFromUsers(st.teachers)
    ensures var r := TeachersRun(st, ds, today); !r.failed && TchIdsFromUsers(r.teachers)
    decreases |ds|
  {
    if ds != [] {
      var u := GetOrCreateRow(st.users, ds[0], UserMatches, MakeTeacherUser, UserPk).obj;
      GetOrCreateTeacherFails(st.teachers, u.id, ds[0], today);
      if Find(st.teachers, u.id, TeacherOfUser).None? {
        forall i | 0 <= i < |st.teachers| ensures st.teachers[i].teacherId != TchId(u.id) {
          if st.teachers[i].teacherId == TchId(u.id) {
            TchIdInjective(st.teachers[i].user, u.id);
            assert TeacherOfUser(st.teachers[i], u.id);
            assert false;
          }
        }
      }
      var s1 := TeacherStep(st, ds[0], today);
      assert TchIdsFromUsers(s1.teachers);
      TeachersRunNeverFails(s1, ds[1..], today);
    }
  }

  // ---------------------------------------------------------------- subjects

  /** A subject looked up by name, class and teacher. */
  datatype SubjectReq = SubjectReq(name: string, classId: nat, teacher: nat)

  function SubjectMatches(s: Subject, q: SubjectReq): bool {
    s.name == q.name && s.classId == q.classId && s.teacher == q.teacher
  }

  function MakeSubject(id: nat, q: SubjectReq): Subject {
    Subject(id, q.name, q.classId, q.teacher)
  }

  /** The inner loop's requests for one class: `f"{subject} - {class name}"`
      taught by the teacher obtained for the same entry. */
  function ClassSubjectRequests(c: Class, ds: seq<TeacherSeed>, ts: seq<Teacher>): (r: seq<SubjectReq>)
    requires |ts| == |ds|
    ensures |r| == |ds|
    ensures forall i :: 0 <= i < |ds| ==>
      r[i].name == ds[i].subject + " - " + c.name && r[i].classId == c.id && r[i].teacher == ts[i].id
  {
    seq(|ds|, i requires 0 <= i < |ds| => SubjectReq(ds[i].subject + " - " + c.name, c.id, ts[i].id))
  }

  /** The requests of both nested loops, class by class. */
  function SubjectRequests(cs: seq<Class>, ds: seq<TeacherSeed>, ts: seq<Teacher>): seq<SubjectReq>
    requires |ts| == |ds|
  {
    if cs == [] then []
    else SubjectRequests(cs[..|cs| - 1], ds, ts) + ClassSubjectRequests(cs[|cs| - 1], ds, ts)
  }

  /** One request per class and teacher entry, class by class: the requests
      for class `k` sit at `k * |ds|` to `(k + 1) * |ds|`. */
  lemma {:induction false} SubjectRequestsLayout(cs: seq<Class>, ds: seq<TeacherSeed>, ts: seq<Teacher>, k: nat, i: nat)
    requires |ts| == |ds| && k < |cs| && i < |ds|
    ensures |SubjectRequests(cs, ds, ts)| == |cs| * |ds|
    ensures k * |ds| + i < |cs| * |ds|
    ensures SubjectRequests(cs, ds, ts)[k * |ds| + i] == ClassSubjectRequests(cs[k], ds, ts)[i]
    decreases |cs|
  {
    var n := |cs| - 1;
    var init := cs[..n];
    SubjectRequestsLength(init, ds, ts);
    assert |cs| * |ds| == n * |ds| + |ds|;
    if k < n {
      SubjectRequestsLayout(init, ds, ts, k, i);
      assert init[k] == cs[k];
    } else {
      assert k * |ds| == n * |ds|;
    }
  }

  lemma {:induction false} SubjectRequestsLength(cs: seq<Class>, ds: seq<TeacherSeed>, ts: seq<Teacher>)
    requires |ts| == |ds|
    ensures |SubjectRequests(cs, ds, ts)| == |cs| * |ds|
    decreases |cs|
  {
    if cs != [] {
      SubjectRequestsLength(cs[..|cs| - 1], ds, ts);
      assert |cs| * |ds| == (|cs| - 1) * |ds| + |ds|;
    }
  }

  /** The subject loop over the classes obtained and the teachers obtained. */
  method SeedSubjects(s: Store, classes: seq<Class>, ds: seq<TeacherSeed>, teachers: seq<Teacher>)
    returns (subjects: seq<Subject>)
    requires |teachers| == |ds|
    requires s.Valid()
    modifies s`subjects
    ensures var r := Run(Batch(old(s.subjects), [], 0), SubjectRequests(classes, ds, teachers),
                         SubjectMatches, MakeSubject, SubjectPk);
      s.subjects == r.table && subjects == r.objs
    ensures s.Valid()
  {
    RunKeepsUniqueIds(Batch(s.subjects, [], 0), SubjectRequests(classes, ds, teachers), SubjectMatches, MakeSubject, SubjectPk);
    subjects := [];
    ghost var start := Batch(s.subjects, [], 0);
    ghost var created: nat := 0;
    var ci := 0;
    while ci < |classes|
      invariant 0 <= ci <= |classes|
      invariant Batch(s.subjects, subjects, created)
        == Run(start, SubjectRequests(classes[..ci], ds, teachers), SubjectMatches, MakeSubject, SubjectPk)
    {
      assert classes[..ci + 1][..ci] == classes[..ci];
      subjects, created := SeedClassSubjects(s, classes[ci], ds, teachers, subjects, start,
                                             SubjectRequests(classes[..ci], ds, teachers), created);
      ci := ci + 1;
    }
    assert classes[..|classes|] == classes;
  }

  /** The inner loop: one subject per teacher entry for class `c`, continuing
      a run that has already gone through the requests `done`. */
  method SeedClassSubjects(s: Store, c: Class, ds: seq<TeacherSeed>, teachers: seq<Teacher>,
                           subjects0: seq<Subject>, ghost start: Batch<Subject>, ghost done: seq<SubjectReq>,
                           ghost created0: nat)
    returns (subjects: seq<Subject>, ghost created: nat)
    requires |teachers| == |ds|
    requires Batch(s.subjects, subjects0, created0) == Run(start, done, SubjectMatches, MakeSubject, SubjectPk)
    modifies s`subjects
    ensures Batch(s.subjects, subjects, created)
      == Run(start, done + ClassSubjectRequests(c, ds, teachers), SubjectMatches, MakeSubject, SubjectPk)
  {
    subjects, created := subjects0, created0;
    ghost var row := ClassSubjectRequests(c, ds, teachers);
    assert done + row[..0] == done;
    var i := 0;
    while i < |ds|
      invariant 0 <= i <= |ds|
      invariant Batch(s.subjects, subjects, created) == Run(start, done + row[..i], SubjectMatches, MakeSubject, SubjectPk)
    {
      var q := SubjectReq(ds[i].subject + " - " + c.name, c.id, teachers[i].id);
      PrefixSnoc(row, i);
      ghost var b := Batch(s.subjects, subjects, created);
      var g := GetOrCreateRow(s.subjects, q, SubjectMatches, MakeSubject, SubjectPk);
      s.subjects := g.table;
      subjects := subjects + [g.obj];
      if g.created {
        created := created + 1;
      }
      assert Batch(s.subjects, subjects, created) == Step(b, q, SubjectMatches, MakeSubject, SubjectPk);
      RunSnoc(start, done + row[..i], q, SubjectMatches, MakeSubject, SubjectPk);
      assert done + row[..i + 1] == done + row[..i] + [q];
      i := i + 1;
    }
    assert row[..|ds|] == row;
  }

  // ---------------------------------------------------------------- the script

  /** The four tables the script touches. */
  datatype Db = Db(users: seq<User>, teachers: seq<Teacher>, classes: seq<Class>, subjects: seq<Subject>)

  /** What the script leaves behind: the tables, the three lists it printed
      the lengths of, and whether it stopped on a refused insert. */
  datatype Report = Report(db: Db, classes: seq<Class>, teachers: seq<Teacher>, subjects: seq<Subject>, failed: bool)

  /** The script's body as a function of the tables before it, the class
      keys and teacher entries it works through, and the day it runs. */
  function SampleData(db: Db, classKeys: seq<ClassKey>, ds: seq<TeacherSeed>, today: Date): Report {
    var c := SeedClasses(db.classes, classKeys);
    var st := TeachersRun(Staffing(db.users, db.teachers, [], false), ds, today);
    if st.failed then Report(Db(st.users, st.teachers, c.table, db.subjects), c.objs, st.obtained, [], true)
    else
      var sb := Run(Batch(db.subjects, [], 0), SubjectRequests(c.objs, ds, st.obtained),
                    SubjectMatches, MakeSubject, SubjectPk);
      Report(Db(st.users, st.teachers, c.table, sb.table), c.objs, st.obtained, sb.objs, false)
  }

  /** `create_sample_data()` on the database `s`, with its own class keys and teacher entries. */
  method CreateSample(s: Store, today: Date) returns (classes: seq<Class>, teachers: seq<Teacher>, subjects: seq<Subject>, ok: bool)
    requires s.Valid()
    modifies s`users, s`teachers, s`classes, s`subjects
    ensures var r := SampleData(Db(old(s.users), old(s.teachers), old(s.classes), old(s.subjects)),
                                SampleClassKeys, TeachersData, today);
      && Db(s.users, s.teachers, s.classes, s.subjects) == r.db
      && classes == r.classes && teachers == r.teachers && subjects == r.subjects && ok == !r.failed
    ensures s.Valid()
  {
    classes, teachers, subjects, ok := SeedAll(s, SampleClassKeys, TeachersData, today);
  }

  /** The three phases of the script: classes, teachers, then subjects
      unless the teacher phase stopped on a refused insert. */
  method SeedAll(s: Store, classKeys: seq<ClassKey>, ds: seq<TeacherSeed>, today: Date)
    returns (classes: seq<Class>, teachers: seq<Teacher>, subjects: seq<Subject>, ok: bool)
    requires s.Valid()
    modifies s`users, s`teachers, s`classes, s`subjects
    ensures var r := SampleData(Db(old(s.users), old(s.teachers), old(s.classes), old(s.subjects)), classKeys, ds, today);
      && Db(s.users, s.teachers, s.classes, s.subjects) == r.db
      && classes == r.classes && teachers == r.teachers && subjects == r.subjects && ok == !r.failed
    ensures s.Valid()
  {
    var created: nat;
    classes, created := SeedLoop(s, classKeys);
    TeachersRunKeepsValid(Staffing(s.users, s.teachers, [], false), ds, today);
    teachers, ok := SeedTeachers(s, ds, today);
    subjects := [];
    if ok {
      subjects := SeedSubjects(s, classes, ds, teachers);
    }
  }

  /** The teacher loop on the database `s`; it stops at the first refused insert. */
  method SeedTeachers(s: Store, ds: seq<TeacherSeed>, today: Date) returns (teachers: seq<Teacher>, ok: bool)
    modifies s`users, s`teachers
    ensures var r := TeachersRun(Staffing(old(s.users), old(s.teachers), [], false), ds, today);
      s.users == r.users && s.teachers == r.teachers && teachers == r.obtained && ok == !r.failed
  {
    teachers := [];
    ok := true;
    ghost var goal := TeachersRun(Staffing(s.users, s.teachers, [], false), ds, today);
    var i := 0;
    while i < |ds|
      invariant 0 <= i <= |ds|
      invariant goal == TeachersRun(Staffing(s.users, s.teachers, teachers, false), ds[i..], today)
    {
      var d := ds[i];
      ghost var st := Staffing(s.users, s.teachers, teachers, false);
      ghost var next := TeacherStep(st, d, today);
      assert goal == TeachersRun(next, ds[i + 1..], today) by {
        assert ds[i..][0] == d && ds[i..][1..] == ds[i + 1..];
      }
      var g := GetOrCreateRow(s.users, d, UserMatches, MakeTeacherUser, UserPk);
      s.users := g.table;
      var user := g.obj;
      var profile := GetOrCreateTeacher(s.teachers, user.id, d, today);
      if profile.Err? {
        ok := false;
        assert next == Staffing(s.users, s.teachers, teachers, true);
        TeachersRunFailed(next, ds[i + 1..], today);
        return;
      }
      s.teachers := profile.value.table;
      teachers := teachers + [profile.value.obj];
      assert next == Staffing(s.users, s.teachers, teachers, false);
      i := i + 1;
    }
  }

  /** Once an insert was refused, the rest of the loop does nothing. */
  lemma {:induction false} TeachersRunFailed(st: Staffing, ds: seq<TeacherSeed>, today: Date)
    requires st.failed
    ensures TeachersRun(st, ds, today) == st
    decreases |ds|
  {
    if ds != [] {
      TeachersRunFailed(TeacherStep(st, ds[0], today), ds[1..], today);
    }
  }

  // ---------------------------------------------------------------- properties of the script

  /** The constraints of the four tables the script writes to. */
  ghost predicate DbValid(db: Db) {
    UsersValid(db.users) && TeachersValid(db.teachers) && UniqueBy(db.classes, ClassPk) && UniqueBy(db.subjects, SubjectPk)
  }

  /** The script keeps every constraint of the tables it writes to, whether it completes or stops. */
  lemma SampleDataKeepsValid(db: Db, classKeys: seq<ClassKey>, ds: seq<TeacherSeed>, today: Date)
    requires DbValid(db)
    ensures DbValid(SampleData(db, classKeys, ds, today).db)
  {
    var c := SeedClasses(db.classes, classKeys);
    RunKeepsUniqueIds(Batch(db.classes, [], 0), classKeys, ClassMatches, MakeClass, ClassPk);
    var st := TeachersRun(Staffing(db.users, db.teachers, [], false), ds, today);
    TeachersRunKeepsValid(Staffing(db.users, db.teachers, [], false), ds, today);
    if !st.failed {
      RunKeepsUniqueIds(Batch(db.subjects, [], 0), SubjectRequests(c.objs, ds, st.obtained),
                        SubjectMatches, MakeSubject, SubjectPk);
    }
  }

  /** The script reports one class per class key and, when it does not
      fail, one teacher per entry and one subject per class and entry. */
  lemma SampleDataShape(db: Db, classKeys: seq<ClassKey>, ds: seq<TeacherSeed>, today: Date)
    ensures var r := SampleData(db, classKeys, ds, today);
      |r.classes| == |classKeys| && (!r.failed ==> |r.teachers| == |ds| && |r.subjects| == |classKeys| * |ds|)
  {
    RunShape(Batch(db.classes, [], 0), classKeys, ClassMatches, MakeClass, ClassPk);
    var r := SampleData(db, classKeys, ds, today);
    if !r.failed {
      var st := TeachersRun(Staffing(db.users, db.teachers, [], false), ds, today);
      SubjectRequestsLength(r.classes, ds, st.obtained);
      RunShape(Batch(db.subjects, [], 0), SubjectRequests(r.classes, ds, st.obtained),
               SubjectMatches, MakeSubject, SubjectPk);
    }
  }

  /** With its own lists the script reports 3 classes and, when it does not
      fail, 3 teachers and 9 subjects. */
  lemma SampleDataCounts(db: Db, today: Date)
    ensures var r := SampleData(db, SampleClassKeys, TeachersData, today);
      |r.classes| == 3 && (!r.failed ==> |r.teachers| == 3 && |r.subjects| == 9)
  {
    SampleDataShape(db, SampleClassKeys, TeachersData, today);
  }

  /** If every existing Teacher row has the id `TCH<user id>` (as on a fresh
      database), the script cannot fail. */
  lemma SampleDataSucceeds(db: Db, classKeys: seq<ClassKey>, ds: seq<TeacherSeed>, today: Date)
    requires TchIdsFromUsers(db.teachers)
    ensures !SampleData(db, classKeys, ds, today).failed
  {
    TeachersRunNeverFails(Staffing(db.users, db.teachers, [], false), ds, today);
  }

  /** After the script every requested class exists. */
  lemma SampleDataCreatesClasses(db: Db, classKeys: seq<ClassKey>, ds: seq<TeacherSeed>, today: Date)
    ensures var r := SampleData(db, classKeys, ds, today);
      forall k :: k in classKeys ==> exists c :: c in r.db.classes && c.name == k.0 && c.section == k.1
  {
    SeedCreatesAll(db.classes, classKeys);
  }

  /** After a successful run every entry's user exists, and the
      reported teachers are their profiles, in order. */
  lemma SampleDataCreatesTeachers(db: Db, classKeys: seq<ClassKey>, ds: seq<TeacherSeed>, today: Date)
    requires !SampleData(db, classKeys, ds, today).failed
    ensures var r := SampleData(db, classKeys, ds, today);
      AllStaffed(r.db.users, r.db.teachers, ds, r.teachers)
  {
    var st := Staffing(db.users, db.teachers, [], false);
    var r := TeachersRun(st, ds, today);
    TeachersRunStaffs(st, ds, today, r);
    assert r.obtained[0..] == r.obtained;
  }

  /** After a successful run every requested subject exists. */
  lemma SampleDataCreatesSubjects(db: Db, classKeys: seq<ClassKey>, ds: seq<TeacherSeed>, today: Date)
    requires !SampleData(db, classKeys, ds, today).failed
    ensures var r := SampleData(db, classKeys, ds, today);
      forall q :: q in SubjectRequests(r.classes, ds, r.teachers) ==>
        exists x :: x in r.db.subjects && x.name == q.name && x.classId == q.classId && x.teacher == q.teacher
  {
    var r := SampleData(db, classKeys, ds, today);
    var qs := SubjectRequests(r.classes, ds, r.teachers);
    forall q | q in qs
      ensures exists x :: x in r.db.subjects && x.name == q.name && x.classId == q.classId && x.teacher == q.teacher
    {
      var i :| 0 <= i < |qs| && qs[i] == q;
      RunFinds(Batch(db.subjects, [], 0), qs, SubjectMatches, MakeSubject, SubjectPk, i);
    }
  }

  /** Running the script a second time after a successful run changes no
      table and reports the same rows. */
  lemma SampleDataTwice(db: Db, classKeys: seq<ClassKey>, ds: seq<TeacherSeed>, today: Date)
    requires !SampleData(db, classKeys, ds, today).failed
    ensures var r1 := SampleData(db, classKeys, ds, today);
      var r2 := SampleData(r1.db, classKeys, ds, today);
      r2 == r1
  {
    var r1 := SampleData(db, classKeys, ds, today);
    RunTwice(db.classes, classKeys, ClassMatches, MakeClass, ClassPk);
    TeachersRunTwice(db.users, db.teachers, ds, today);
    RunTwice(db.subjects, SubjectRequests(r1.classes, ds, r1.teachers), SubjectMatches, MakeSubject, SubjectPk);
  }
}
