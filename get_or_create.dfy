/** The `get_or_create` pattern the seeding scripts repeat: look a row up by
    some fields and insert one only when none matches. `Step` is one call,
    `Run` a loop of calls that collects the rows obtained and counts the
    rows it created. */
module GetOrCreate {
  import opened Common
  import opened Tables

  /** The first row matching `q`: the row `get()` returns. */
  function Find<R, Q>(t: seq<R>, q: Q, matches: (R, Q) -> bool): (r: Option<R>)
    ensures r.Some? ==> r.value in t && matches(r.value, q)
    ensures r.None? <==> forall i :: 0 <= i < |t| ==> !matches(t[i], q)
  {
    if t == [] then None
    else if matches(t[0], q) then Some(t[0])
    else
      var r := Find(t[1..], q, matches);
      assert forall i :: 1 <= i < |t| ==> t[i] == t[1..][i - 1];
      r
  }

  /** The primary key the database gives the next inserted row. */
  function NextId<R>(t: seq<R>, idOf: R -> nat): (n: nat)
    ensures n >= 1
    ensures forall i :: 0 <= i < |t| ==> idOf(t[i]) < n
  {
    if t == [] then 1
    else
      var m := NextId(t[1..], idOf);
      assert forall i :: 1 <= i < |t| ==> t[i] == t[1..][i - 1];
      if idOf(t[0]) < m then m else idOf(t[0]) + 1
  }

  /** The state of a seeding loop: the table, the rows obtained so far
      (the list the script appends to), and how many rows it created. */
  datatype Batch<R> = Batch(table: seq<R>, objs: seq<R>, created: nat)

  /** What `get_or_create` returns: the table afterwards, the row, and whether it was created. */
  datatype Got<R> = Got(table: seq<R>, obj: R, created: bool)

  /** One `get_or_create(q)`: the matching row if there is one, otherwise a
      new row built from `q` with a fresh primary key, appended to the table. */
  function GetOrCreateRow<R, Q>(t: seq<R>, q: Q, matches: (R, Q) -> bool, make: (nat, Q) -> R, idOf: R -> nat): (g: Got<R>)
    ensures g.created <==> Find(t, q, matches).None?
    ensures !g.created ==> g.table == t && Some(g.obj) == Find(t, q, matches)
    ensures g.created ==> g.table == t + [g.obj] && g.obj == make(NextId(t, idOf), q)
  {
    match Find(t, q, matches)
    case Some(r) => Got(t, r, false)
    case None =>
      var x := make(NextId(t, idOf), q);
      Got(t + [x], x, true)
  }

  /** One iteration of a seeding loop: `get_or_create`, append the row, count it if created. */
  function Step<R, Q>(b: Batch<R>, q: Q, matches: (R, Q) -> bool, make: (nat, Q) -> R, idOf: R -> nat): Batch<R>
  {
    var g := GetOrCreateRow(b.table, q, matches, make, idOf);
    Batch(g.table, b.objs + [g.obj], if g.created then b.created + 1 else b.created)
  }

  /** A loop of `get_or_create` calls, one per request, in order. */
  function Run<R, Q>(b: Batch<R>, qs: seq<Q>, matches: (R, Q) -> bool, make: (nat, Q) -> R, idOf: R -> nat): Batch<R>
    decreases |qs|
  {
    if qs == [] then b else Run(Step(b, qs[0], matches, make, idOf), qs[1..], matches, make, idOf)
  }

  /** Running one more request is one more step after the run. */
  lemma {:induction false} RunSnoc<R, Q>(b: Batch<R>, qs: seq<Q>, q: Q, matches: (R, Q) -> bool, make: (nat, Q) -> R, idOf: R -> nat)
    ensures Run(b, qs + [q], matches, make, idOf) == Step(Run(b, qs, matches, make, idOf), q, matches, make, idOf)
    decreases |qs|
  {
    if qs == [] {
      assert [q][1..] == [];
    } else {
      assert (qs + [q])[1..] == qs[1..] + [q];
      RunSnoc(Step(b, qs[0], matches, make, idOf), qs[1..], q, matches, make, idOf);
    }
  }

  /** A built row matches the request it was built from. */
  ghost predicate Sound<R, Q(!new)>(matches: (R, Q) -> bool, make: (nat, Q) -> R) {
    forall n: nat, q: Q :: matches(make(n, q), q)
  }

  /** A built row carries the primary key it was given. */
  ghost predicate KeepsId<R, Q(!new)>(make: (nat, Q) -> R, idOf: R -> nat) {
    forall n: nat, q: Q :: idOf(make(n, q)) == n
  }

  // ---------------------------------------------------------------- lemmas

  /** A run only appends: existing rows are neither changed nor removed, one
      row is obtained per request, and the count is the number of rows added. */
  lemma {:induction false} RunShape<R, Q>(b: Batch<R>, qs: seq<Q>, matches: (R, Q) -> bool, make: (nat, Q) -> R, idOf: R -> nat)
    ensures var r := Run(b, qs, matches, make, idOf);
      && |b.table| <= |r.table| && r.table[..|b.table|] == b.table
      && |r.objs| == |b.objs| + |qs| && r.objs[..|b.objs|] == b.objs
      && r.created == b.created + (|r.table| - |b.table|)
    decreases |qs|
  {
    if qs != [] {
      var b1 := Step(b, qs[0], matches, make, idOf);
      RunShape(b1, qs[1..], matches, make, idOf);
      var r := Run(b1, qs[1..], matches, make, idOf);
      assert r.table[..|b.table|] == r.table[..|b1.table|][..|b.table|];
      assert r.objs[..|b.objs|] == r.objs[..|b1.objs|][..|b.objs|];
    }
  }

  /** Every row a run adds was built from one of its requests. */
  lemma {:induction false} RunAddsOnlyBuilt<R, Q>(b: Batch<R>, qs: seq<Q>, matches: (R, Q) -> bool, make: (nat, Q) -> R, idOf: R -> nat)
    ensures var r := Run(b, qs, matches, make, idOf);
      forall j :: |b.table| <= j < |r.table| ==> exists n: nat, k :: 0 <= k < |qs| && r.table[j] == make(n, qs[k])
    decreases |qs|
  {
    if qs != [] {
      var b1 := Step(b, qs[0], matches, make, idOf);
      RunAddsOnlyBuilt(b1, qs[1..], matches, make, idOf);
      RunShape(b1, qs[1..], matches, make, idOf);
      var r := Run(b1, qs[1..], matches, make, idOf);
      forall j | |b.table| <= j < |r.table|
        ensures exists n: nat, k :: 0 <= k < |qs| && r.table[j] == make(n, qs[k])
      {
        if j < |b1.table| {
          assert r.table[j] == b1.table[j];
          assert b1.table == b.table + [make(NextId(b.table, idOf), qs[0])];
          assert r.table[j] == make(NextId(b.table, idOf), qs[0]);
          assert 0 <= 0 < |qs|;
        } else {
          var n: nat, k :| 0 <= k < |qs[1..]| && r.table[j] == make(n, qs[1..][k]);
          assert qs[1..][k] == qs[k + 1];
          assert 0 <= k + 1 < |qs| && r.table[j] == make(n, qs[k + 1]);
        }
      }
    }
  }

  /** Rows appended after a match do not hide it. */
  lemma {:induction false} FindExtends<R, Q>(t: seq<R>, e: seq<R>, q: Q, matches: (R, Q) -> bool)
    requires Find(t, q, matches).Some?
    ensures Find(t + e, q, matches) == Find(t, q, matches)
  {
    if !matches(t[0], q) {
      assert (t + e)[1..] == t[1..] + e;
      FindExtends(t[1..], e, q, matches);
    }
  }

  /** A table's first match is the same in any longer table that starts with it. */
  lemma FindInLonger<R, Q>(t: seq<R>, u: seq<R>, q: Q, matches: (R, Q) -> bool)
    requires |t| <= |u| && u[..|t|] == t
    requires Find(t, q, matches).Some?
    ensures Find(u, q, matches) == Find(t, q, matches)
  {
    assert u == t + u[|t|..];
    FindExtends(t, u[|t|..], q, matches);
  }

  /** After a step the request has a first match, and it is the row the step obtained. */
  lemma StepFinds<R, Q(!new)>(b: Batch<R>, q: Q, matches: (R, Q) -> bool, make: (nat, Q) -> R, idOf: R -> nat)
    requires Sound(matches, make)
    ensures var b1 := Step(b, q, matches, make, idOf);
      Find(b1.table, q, matches) == Some(b1.objs[|b1.objs| - 1])
  {
    if Find(b.table, q, matches).None? {
      var x := make(NextId(b.table, idOf), q);
      var t := b.table + [x];
      assert forall i :: 0 <= i < |b.table| ==> t[i] == b.table[i];
      FindAfterMisses(t, |b.table|, q, matches);
    }
  }

  /** If the first `k` rows miss and row `k` matches, row `k` is the first match. */
  lemma {:induction false} FindAfterMisses<R, Q>(t: seq<R>, k: nat, q: Q, matches: (R, Q) -> bool)
    requires k < |t| && matches(t[k], q)
    requires forall i :: 0 <= i < k ==> !matches(t[i], q)
    ensures Find(t, q, matches) == Some(t[k])
  {
    if k > 0 {
      FindAfterMisses(t[1..], k - 1, q, matches);
    }
  }

  /** Every request of a run is matched, in the final table, first by the row
      the run obtained for it: the list the script collects is what a fresh
      lookup would return. */
  lemma {:induction false} RunFinds<R, Q(!new)>(b: Batch<R>, qs: seq<Q>, matches: (R, Q) -> bool, make: (nat, Q) -> R, idOf: R -> nat, i: nat)
    requires Sound(matches, make)
    requires i < |qs|
    ensures var r := Run(b, qs, matches, make, idOf);
      |r.objs| == |b.objs| + |qs| && Find(r.table, qs[i], matches) == Some(r.objs[|b.objs| + i])
    decreases |qs|
  {
    var b1 := Step(b, qs[0], matches, make, idOf);
    var r := Run(b, qs, matches, make, idOf);
    RunShape(b1, qs[1..], matches, make, idOf);
    if i == 0 {
      StepFinds(b, qs[0], matches, make, idOf);
      FindInLonger(b1.table, r.table, qs[0], matches);
      assert r.objs[..|b1.objs|] == b1.objs;
      assert r.objs[|b.objs|] == b1.objs[|b1.objs| - 1];
    } else {
      RunFinds(b1, qs[1..], matches, make, idOf, i - 1);
    }
  }

  /** When every request already has a match, a run changes nothing and creates nothing. */
  lemma {:induction false} RunPresent<R, Q>(b: Batch<R>, qs: seq<Q>, matches: (R, Q) -> bool, make: (nat, Q) -> R, idOf: R -> nat)
    requires forall i :: 0 <= i < |qs| ==> Find(b.table, qs[i], matches).Some?
    ensures var r := Run(b, qs, matches, make, idOf); r.table == b.table && r.created == b.created
    decreases |qs|
  {
    if qs != [] {
      RunPresent(Step(b, qs[0], matches, make, idOf), qs[1..], matches, make, idOf);
    }
  }

  /** After a run, every one of its requests has a match. */
  lemma RunLeavesAllPresent<R, Q(!new)>(b: Batch<R>, qs: seq<Q>, matches: (R, Q) -> bool, make: (nat, Q) -> R, idOf: R -> nat)
    requires Sound(matches, make)
    ensures var r := Run(b, qs, matches, make, idOf);
      forall i :: 0 <= i < |qs| ==> Find(r.table, qs[i], matches).Some?
  {
    forall i | 0 <= i < |qs| ensures Find(Run(b, qs, matches, make, idOf).table, qs[i], matches).Some? {
      RunFinds(b, qs, matches, make, idOf, i);
    }
  }

  /** A second run over the table a first run left behind collects the same rows. */
  lemma RunAgainSameObjs<R, Q(!new)>(t: seq<R>, qs: seq<Q>, matches: (R, Q) -> bool, make: (nat, Q) -> R, idOf: R -> nat)
    requires Sound(matches, make)
    ensures var r1 := Run(Batch(t, [], 0), qs, matches, make, idOf);
      Run(Batch(r1.table, [], 0), qs, matches, make, idOf).objs == r1.objs
  {
    var r1 := Run(Batch(t, [], 0), qs, matches, make, idOf);
    var b2 := Batch(r1.table, [], 0);
    var r2 := Run(b2, qs, matches, make, idOf);
    RunShape(b2, qs, matches, make, idOf);
    RunShape(Batch(t, [], 0), qs, matches, make, idOf);
    RunPresent(b2, qs, matches, make, idOf) by {
      RunLeavesAllPresent(Batch(t, [], 0), qs, matches, make, idOf);
    }
    forall i | 0 <= i < |qs| ensures r2.objs[i] == r1.objs[i] {
      RunFinds(Batch(t, [], 0), qs, matches, make, idOf, i);
      RunFinds(b2, qs, matches, make, idOf, i);
    }
  }

  /** Running the same requests a second time changes nothing, creates
      nothing, and collects the same rows. */
  lemma RunTwice<R, Q(!new)>(t: seq<R>, qs: seq<Q>, matches: (R, Q) -> bool, make: (nat, Q) -> R, idOf: R -> nat)
    requires Sound(matches, make)
    ensures var r1 := Run(Batch(t, [], 0), qs, matches, make, idOf);
      var r2 := Run(Batch(r1.table, [], 0), qs, matches, make, idOf);
      r2.table == r1.table && r2.created == 0 && r2.objs == r1.objs
  {
    var r1 := Run(Batch(t, [], 0), qs, matches, make, idOf);
    RunLeavesAllPresent(Batch(t, [], 0), qs, matches, make, idOf);
    RunPresent(Batch(r1.table, [], 0), qs, matches, make, idOf);
    RunAgainSameObjs(t, qs, matches, make, idOf);
  }

  /** How many requests have no match in `t`. */
  function CountAbsent<R, Q>(t: seq<R>, qs: seq<Q>, matches: (R, Q) -> bool): (n: nat)
    ensures n <= |qs|
  {
    if qs == [] then 0
    else (if Find(t, qs[0], matches).None? then 1 else 0) + CountAbsent(t, qs[1..], matches)
  }

  /** No row built for an earlier request matches a later one (the requests are distinct). */
  ghost predicate Distinct<R, Q>(qs: seq<Q>, matches: (R, Q) -> bool, make: (nat, Q) -> R) {
    forall n: nat, i, j :: 0 <= i < j < |qs| ==> !matches(make(n, qs[i]), qs[j])
  }

  /** Adding a row that matches none of the requests leaves their count of absentees unchanged. */
  lemma {:induction false} CountAbsentAppend<R, Q>(t: seq<R>, x: R, qs: seq<Q>, matches: (R, Q) -> bool)
    requires forall j :: 0 <= j < |qs| ==> !matches(x, qs[j])
    ensures CountAbsent(t + [x], qs, matches) == CountAbsent(t, qs, matches)
  {
    if qs != [] {
      var t' := t + [x];
      assert forall i :: 0 <= i < |t| ==> t'[i] == t[i];
      assert Find(t', qs[0], matches).None? <==> Find(t, qs[0], matches).None?;
      CountAbsentAppend(t, x, qs[1..], matches);
    }
  }

  /** For distinct requests, a run creates exactly one row per request that
      had no match beforehand. */
  lemma {:induction false} RunCount<R, Q>(b: Batch<R>, qs: seq<Q>, matches: (R, Q) -> bool, make: (nat, Q) -> R, idOf: R -> nat)
    requires Distinct(qs, matches, make)
    ensures Run(b, qs, matches, make, idOf).created == b.created + CountAbsent(b.table, qs, matches)
    decreases |qs|
  {
    if qs != [] {
      var b1 := Step(b, qs[0], matches, make, idOf);
      var rest := qs[1..];
      assert Distinct(rest, matches, make) by {
        forall n: nat, i, j | 0 <= i < j < |rest| ensures !matches(make(n, rest[i]), rest[j]) {
          assert rest[i] == qs[i + 1] && rest[j] == qs[j + 1];
        }
      }
      RunCount(b1, rest, matches, make, idOf);
      if Find(b.table, qs[0], matches).None? {
        var x := make(NextId(b.table, idOf), qs[0]);
        assert forall j :: 0 <= j < |rest| ==> !matches(x, rest[j]) by {
          forall j | 0 <= j < |rest| ensures !matches(x, rest[j]) {
            assert rest[j] == qs[j + 1];
          }
        }
        CountAbsentAppend(b.table, x, rest, matches);
      }
    }
  }

  /** A run keeps primary keys unique. */
  lemma {:induction false} RunKeepsUniqueIds<R, Q(!new)>(b: Batch<R>, qs: seq<Q>, matches: (R, Q) -> bool, make: (nat, Q) -> R, idOf: R -> nat)
    requires KeepsId(make, idOf)
    requires UniqueBy(b.table, idOf)
    ensures UniqueBy(Run(b, qs, matches, make, idOf).table, idOf)
    decreases |qs|
  {
    if qs != [] {
      if Find(b.table, qs[0], matches).None? {
        var x := make(NextId(b.table, idOf), qs[0]);
        forall y | y in b.table ensures idOf(y) != idOf(x) {
          var k :| 0 <= k < |b.table| && b.table[k] == y;
        }
        AppendKeepsUnique(b.table, x, idOf);
      }
      RunKeepsUniqueIds(Step(b, qs[0], matches, make, idOf), qs[1..], matches, make, idOf);
    }
  }

  /** A run keeps a column unique when that column is what the lookup matches on. */
  lemma {:induction false} RunKeepsUniqueKey<R, Q, K>(b: Batch<R>, qs: seq<Q>, matches: (R, Q) -> bool, make: (nat, Q) -> R, idOf: R -> nat, key: R -> K)
    requires forall r: R, n: nat, q: Q :: key(r) == key(make(n, q)) ==> matches(r, q)
    requires UniqueBy(b.table, key)
    ensures UniqueBy(Run(b, qs, matches, make, idOf).table, key)
    decreases |qs|
  {
    if qs != [] {
      if Find(b.table, qs[0], matches).None? {
        var x := make(NextId(b.table, idOf), qs[0]);
        forall y | y in b.table ensures key(y) != key(x) {
          var k :| 0 <= k < |b.table| && b.table[k] == y;
        }
        AppendKeepsUnique(b.table, x, key);
      }
      RunKeepsUniqueKey(Step(b, qs[0], matches, make, idOf), qs[1..], matches, make, idOf, key);
    }
  }
}
