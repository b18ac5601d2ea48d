/** The management command that makes sure Class 1 to Class 10, section A, exist. */
module CreateClasses {
  import opened Common
  import opened Tables
  import opened SchoolModels
  import opened GetOrCreate

  /** A class looked up by (name, section). */
  type ClassKey = (string, string)

  /** `classes_data`: the ten classes the command creates, in order. */
  const ClassesData: seq<ClassKey> := [
    ("Class 1", "A"), ("Class 2", "A"), ("Class 3", "A"), ("Class 4", "A"), ("Class 5", "A"),
    ("Class 6", "A"), ("Class 7", "A"), ("Class 8", "A"), ("Class 9", "A"), ("Class 10", "A")
  ]

  function ClassMatches(c: Class, k: ClassKey): bool {
    c.name == k.0 && c.section == k.1
  }

  /** The row `get_or_create` inserts: the name and section, no class teacher. */
  function MakeClass(id: nat, k: ClassKey): Class {
    Class(id, k.0, k.1, None)
  }

  /** The effect of the command's loop on the Class table, as a function of the table before it. */
  function SeedClasses(t: seq<Class>, qs: seq<ClassKey>): Batch<Class> {
    Run(Batch(t, [], 0), qs, ClassMatches, MakeClass, ClassPk)
  }

  /** `Command.handle`: get_or_create every class of `classes_data`, counting the ones created. */
  method Handle(s: Store) returns (createdCount: nat)
    requires s.Valid()
    modifies s`classes
    ensures s.Valid()
    ensures var r := SeedClasses(old(s.classes), ClassesData);
      s.classes == r.table && createdCount == r.created
  {
    var classList: seq<Class>;
    classList, createdCount := SeedLoop(s, ClassesData);
  }

  /** The loop of `handle` over a list of (name, section) pairs. */
  method SeedLoop(s: Store, classesData: seq<ClassKey>) returns (obtained: seq<Class>, createdCount: nat)
    requires s.Valid()
    modifies s`classes
    ensures s.Valid()
    ensures var r := SeedClasses(old(s.classes), classesData);
      s.classes == r.table && obtained == r.objs && createdCount == r.created
  {
    createdCount := 0;
    obtained := [];
    ghost var t0 := s.classes;
    var i := 0;
    while i < |classesData|
      invariant 0 <= i <= |classesData|
      invariant Batch(s.classes, obtained, createdCount) == SeedClasses(t0, classesData[..i])
    {
      var got := GetOrCreateRow(s.classes, classesData[i], ClassMatches, MakeClass, ClassPk);
      RunSnoc(Batch(t0, [], 0), classesData[..i], classesData[i], ClassMatches, MakeClass, ClassPk);
      assert classesData[..i + 1] == classesData[..i] + [classesData[i]];
      s.classes := got.table;
      obtained := obtained + [got.obj];
      if got.created {
        createdCount := createdCount + 1;
      }
      i := i + 1;
    }
    assert classesData[..i] == classesData;
    RunKeepsUniqueIds(Batch(t0, [], 0), classesData, ClassMatches, MakeClass, ClassPk);
  }

  lemma ClassesDataDistinct()
    ensures Distinct(ClassesData, ClassMatches, MakeClass)
  {
  }

  /** After the loop every requested class exists. */
  lemma SeedCreatesAll(t: seq<Class>, qs: seq<ClassKey>)
    ensures var r := SeedClasses(t, qs);
      forall k :: k in qs ==> exists c :: c in r.table && c.name == k.0 && c.section == k.1
  {
    var r := SeedClasses(t, qs);
    forall k | k in qs ensures exists c :: c in r.table && c.name == k.0 && c.section == k.1 {
      var i :| 0 <= i < |qs| && qs[i] == k;
      RunFinds(Batch(t, [], 0), qs, ClassMatches, MakeClass, ClassPk, i);
    }
  }

  /** Afterwards Class 1 to Class 10, section A, all exist. */
  lemma HandleCreatesAll(t: seq<Class>)
    ensures var r := SeedClasses(t, ClassesData);
      forall k :: k in ClassesData ==> exists c :: c in r.table && c.name == k.0 && c.section == k.1
  {
    SeedCreatesAll(t, ClassesData);
  }

  /** Existing classes, matching or not, are kept as they were and in place;
      the command only appends section-A classes named in `classes_data`,
      without a class teacher. */
  lemma HandleOnlyAppends(t: seq<Class>)
    ensures var r := SeedClasses(t, ClassesData);
      && |t| <= |r.table| && r.table[..|t|] == t
      && forall j :: |t| <= j < |r.table| ==>
           (r.table[j].name, r.table[j].section) in ClassesData && r.table[j].classTeacher.None?
  {
    SeedOnlyAppends(t, ClassesData);
  }

  /** The same for any list of requests. */
  lemma SeedOnlyAppends(t: seq<Class>, qs: seq<ClassKey>)
    ensures var r := SeedClasses(t, qs);
      && |t| <= |r.table| && r.table[..|t|] == t
      && forall j :: |t| <= j < |r.table| ==>
           (r.table[j].name, r.table[j].section) in qs && r.table[j].classTeacher.None?
  {
    var r := SeedClasses(t, qs);
    RunShape(Batch(t, [], 0), qs, ClassMatches, MakeClass, ClassPk);
    RunAddsOnlyBuilt(Batch(t, [], 0), qs, ClassMatches, MakeClass, ClassPk);
    forall j | |t| <= j < |r.table|
      ensures (r.table[j].name, r.table[j].section) in qs && r.table[j].classTeacher.None?
    {
      var n: nat, k :| 0 <= k < |qs| && r.table[j] == MakeClass(n, qs[k]);
    }
  }

  /** `created_count` is the number of the ten classes that were missing beforehand. */
  lemma HandleCount(t: seq<Class>)
    ensures SeedClasses(t, ClassesData).created == CountAbsent(t, ClassesData, ClassMatches)
  {
    ClassesDataDistinct();
    RunCount(Batch(t, [], 0), ClassesData, ClassMatches, MakeClass, ClassPk);
  }

  /** Running the command twice: the second run reports 0 and leaves the table as the first left it. */
  lemma HandleTwice(t: seq<Class>)
    ensures var r1 := SeedClasses(t, ClassesData);
      var r2 := SeedClasses(r1.table, ClassesData);
      r2.created == 0 && r2.table == r1.table
  {
    RunTwice(t, ClassesData, ClassMatches, MakeClass, ClassPk);
  }
}
