/**
 Schema migrations: each pending one runs in its own transaction together with its row in the version
 table, in version order; the first that fails is rolled back and ends the run.

 A schema is identified with the migrations that made it, in the order they were applied.  Which
 migration fails and where the process dies are inputs.
 */
module Migrations {

  /** `applied` is the version table. */
  datatype Db = Db(schema: seq<nat>, applied: set<nat>)

  const EMPTY := Db([], {})

  predicate Sorted(vs: seq<nat>) {
    forall i, j :: 0 <= i < j < |vs| ==> vs[i] < vs[j]
  }

  /** The versions of the set in ascending order. */
  ghost predicate Orders(vs: seq<nat>, s: set<nat>) {
    Sorted(vs) && forall v :: v in vs <==> v in s
  }

  function SetOf(vs: seq<nat>): set<nat> {
    set v | v in vs
  }

  ghost predicate IsHighest(s: set<nat>, m: nat) {
    m in s && forall x :: x in s ==> x <= m
  }

  lemma HighestExists(s: set<nat>)
    requires s != {}
    ensures exists m :: IsHighest(s, m)
  {
    var first :| first in s;
    var rest := s - {first};
    assert s == rest + {first};
    if rest == {} {
      assert IsHighest(s, first);
    } else {
      HighestExists(rest);
      var n :| IsHighest(rest, n);
      assert IsHighest(s, if n > first then n else first);
    }
  }

  ghost function Highest(s: set<nat>): (m: nat)
    requires s != {}
    ensures IsHighest(s, m)
  {
    HighestExists(s);
    var m :| IsHighest(s, m);
    m
  }

  /** `COALESCE(MAX(version), 0)`. */
  ghost function Current(applied: set<nat>): nat {
    if applied == {} then 0 else Highest(applied)
  }

  lemma Joined(a: seq<nat>, b: seq<nat>, low: set<nat>, high: set<nat>)
    requires Orders(a, low) && Orders(b, high) && forall x, y :: x in low && y in high ==> x < y
    ensures Orders(a + b, low + high)
  {
    var c := a + b;
    forall i, j | 0 <= i < j < |c| ensures c[i] < c[j] {
      if i < |a| <= j { assert a[i] in low && b[j-|a|] in high; }
    }
  }

  lemma OrderExists(s: set<nat>)
    ensures exists vs :: Orders(vs, s)
  {
    if s == {} {
      assert Orders([], s);
    } else {
      var top := Highest(s);
      OrderExists(s - {top});
      var init :| Orders(init, s - {top});
      Joined(init, [top], s - {top}, {top});
      assert s - {top} + {top} == s;
      assert Orders(init + [top], s);
    }
  }

  ghost function InOrder(s: set<nat>): (vs: seq<nat>)
    ensures Orders(vs, s)
  {
    OrderExists(s);
    var vs :| Orders(vs, s);
    vs
  }

  lemma LastOut(a: seq<nat>, s: set<nat>)
    requires Orders(a, s) && a != []
    ensures Orders(a[..|a|-1], s - {a[|a|-1]}) && IsHighest(s, a[|a|-1])
  {
    var p := a[..|a|-1];
    assert a == p + [a[|a|-1]];
    assert a[|a|-1] in a;
  }

  lemma EmptyOrder(vs: seq<nat>, s: set<nat>)
    requires Orders(vs, s)
    ensures vs == [] <==> s == {}
  {
    if vs != [] { assert vs[0] in vs; }
  }

  /** There is only one ascending order. */
  lemma {:induction false} OneOrder(a: seq<nat>, b: seq<nat>, s: set<nat>)
    requires Orders(a, s) && Orders(b, s)
    ensures a == b
  {
    EmptyOrder(a, s);
    EmptyOrder(b, s);
    if s != {} {
      LastOut(a, s);
      LastOut(b, s);
      OneOrder(a[..|a|-1], b[..|b|-1], s - {a[|a|-1]});
    }
  }

  lemma OrderIs(vs: seq<nat>, s: set<nat>)
    requires Orders(vs, s)
    ensures InOrder(s) == vs
  {
    OneOrder(InOrder(s), vs, s);
  }

  /** Low versions and then high ones. */
  lemma OrderSplits(low: set<nat>, high: set<nat>)
    requires forall x, y :: x in low && y in high ==> x < y
    ensures InOrder(low + high) == InOrder(low) + InOrder(high)
  {
    Joined(InOrder(low), InOrder(high), low, high);
    OrderIs(InOrder(low) + InOrder(high), low + high);
  }

  // ----- a run -----

  ghost function Missing(db: Db, ms: set<nat>): set<nat> {
    set v | v in ms && v > Current(db.applied)
  }

  ghost function Pending(db: Db, ms: set<nat>): seq<nat> {
    InOrder(Missing(db, ms))
  }

  /** The first n pending migrations are applied; n falls short when one fails or the process dies. */
  ghost function AfterRun(db: Db, ms: set<nat>, n: nat): Db
    requires n <= |Pending(db, ms)|
  {
    var done := Pending(db, ms)[..n];
    Db(db.schema + done, db.applied + SetOf(done))
  }

  /** Every pending migration is applied. */
  ghost function AfterFullRun(db: Db, ms: set<nat>): Db {
    AfterRun(db, ms, |Pending(db, ms)|)
  }

  /** The schema is the first part of the ordered list, each migration applied once. */
  ghost predicate IsPrefix(db: Db, ms: set<nat>) {
    && Orders(db.schema, db.applied) && db.applied <= ms
    && forall x, y :: x in db.applied && y in ms - db.applied ==> x < y
  }

  lemma PrefixOfOrder(db: Db, ms: set<nat>)
    requires IsPrefix(db, ms)
    ensures db.schema <= InOrder(ms)
  {
    var rest := ms - db.applied;
    assert db.applied + rest == ms;
    OrderSplits(db.applied, rest);
    OrderIs(db.schema, db.applied);
  }

  lemma FrontOfOrder(vs: seq<nat>, s: set<nat>, n: nat)
    requires Orders(vs, s) && n <= |vs|
    ensures Orders(vs[..n], SetOf(vs[..n])) && SetOf(vs[..n]) <= s
    ensures forall x, y :: x in SetOf(vs[..n]) && y in s - SetOf(vs[..n]) ==> x < y
    ensures n == |vs| ==> SetOf(vs[..n]) == s
  {
    assert vs == vs[..n] + vs[n..];
  }

  /** A run that stops anywhere leaves a version-sorted prefix, each migration applied once; a run that
      gets through leaves all of them. */
  lemma RunKeepsPrefix(db: Db, ms: set<nat>, n: nat)
    requires IsPrefix(db, ms) && 0 !in ms && n <= |Pending(db, ms)|
    ensures IsPrefix(AfterRun(db, ms, n), ms)
    ensures n == |Pending(db, ms)| ==> AfterRun(db, ms, n) == Db(InOrder(ms), ms)
  {
    var rest, done := ms - db.applied, Pending(db, ms)[..n];
    FrontOfOrder(Pending(db, ms), rest, n);
    Joined(db.schema, done, db.applied, SetOf(done));
    assert ms - (db.applied + SetOf(done)) == rest - SetOf(done);
    if n == |Pending(db, ms)| {
      assert db.applied + SetOf(done) == ms;
      OrderIs(db.schema + done, ms);
    }
  }

  /** One start of the program: the list it ships, and how far it gets. */
  datatype Start = Start(versions: set<nat>, reached: nat)

  /** The longer list has new versions only on top. */
  ghost predicate Extends(ms: set<nat>, ms': set<nat>) {
    ms <= ms' && forall x, y :: x in ms && y in ms' - ms ==> x < y
  }

  /** Each start ships a front part of all versions ever shipped: releases may follow one another in any
      order, an older one after a newer one included. */
  ghost predicate Releases(starts: seq<Start>, all: set<nat>) {
    0 !in all && forall k :: 0 <= k < |starts| ==> Extends(starts[k].versions, all)
  }

  ghost function Stopped(db: Db, s: Start): Db {
    var n := |Pending(db, s.versions)|;
    AfterRun(db, s.versions, if s.reached <= n then s.reached else n)
  }

  ghost function RunAll(starts: seq<Start>): Db {
    if starts == [] then EMPTY else Stopped(RunAll(starts[..|starts|-1]), starts[|starts|-1])
  }

  lemma LongerListKeepsPrefix(db: Db, ms: set<nat>, ms': set<nat>)
    requires IsPrefix(db, ms) && Extends(ms, ms')
    ensures IsPrefix(db, ms')
  {
    forall x, y | x in db.applied && y in ms' - db.applied ensures x < y {
      assert y in ms - db.applied || y in ms' - ms;
    }
  }

  /** What the database has and the release does not know makes no difference to what is pending. */
  lemma KnownAddsNothing(db: Db, ms: set<nat>)
    ensures Missing(db, ms) == Missing(db, db.applied + ms)
  {
    if db.applied != {} { assert IsHighest(db.applied, Current(db.applied)); }
  }

  lemma BothAreFront(db: Db, ms: set<nat>, all: set<nat>)
    requires IsPrefix(db, all) && Extends(ms, all)
    ensures IsPrefix(db, db.applied + ms) && Extends(db.applied + ms, all)
  {
    forall x, y | x in db.applied && y in (db.applied + ms) - db.applied ensures x < y {
      assert y in all - db.applied;
    }
    forall x, y | x in db.applied + ms && y in all - (db.applied + ms) ensures x < y {
      assert y in all - db.applied && y in all - ms;
    }
  }

  lemma StartResumes(db: Db, s: Start, all: set<nat>)
    requires IsPrefix(db, all) && Extends(s.versions, all) && 0 !in all
    ensures IsPrefix(Stopped(db, s), all)
    ensures s.reached >= |Pending(db, s.versions)| ==>
      Stopped(db, s) == AfterFullRun(EMPTY, db.applied + s.versions)
  {
    var both, n := db.applied + s.versions, |Pending(db, s.versions)|;
    KnownAddsNothing(db, s.versions);
    BothAreFront(db, s.versions, all);
    RunKeepsPrefix(db, both, if s.reached <= n then s.reached else n);
    LongerListKeepsPrefix(Stopped(db, s), both, all);
    RunKeepsPrefix(EMPTY, both, |Pending(EMPTY, both)|);
  }

  /** However many starts failed or crashed, and wherever, the schema is a version-sorted prefix with
      each migration applied exactly once; and a start that gets through leaves what a single clean run
      from scratch would, over its own list and whatever a newer release had applied before. */
  lemma {:induction false} FailedRunsResume(starts: seq<Start>, all: set<nat>)
    requires Releases(starts, all) && starts != []
    ensures IsPrefix(RunAll(starts), all)
    ensures var before, last := RunAll(starts[..|starts|-1]), starts[|starts|-1];
      last.reached >= |Pending(before, last.versions)| ==>
        && RunAll(starts) == AfterFullRun(EMPTY, before.applied + last.versions)
        && (before.applied <= last.versions ==> RunAll(starts) == AfterFullRun(EMPTY, last.versions))
  {
    var init, last := starts[..|starts|-1], starts[|starts|-1];
    var db := RunAll(init);
    if init != [] { FailedRunsResume(init, all); }
    StartResumes(db, last, all);
    if db.applied <= last.versions { assert db.applied + last.versions == last.versions; }
  }

  /** A run that gets through leaves what a clean one would exactly when every version the database has
      not seen is higher than all it has: a lower version slipped in later is skipped for good. */
  lemma LateVersionSkippedIff(db: Db, ms: set<nat>)
    requires Orders(db.schema, db.applied) && db.applied <= ms && 0 !in ms
    ensures AfterFullRun(db, ms) == AfterFullRun(EMPTY, ms) <==>
      forall v :: v in ms && v !in db.applied ==> v > Current(db.applied)
  {
    RunKeepsPrefix(EMPTY, ms, |Pending(EMPTY, ms)|);
    if forall v :: v in ms && v !in db.applied ==> v > Current(db.applied) {
      assert forall x :: x in db.applied ==> x <= Current(db.applied);
      RunKeepsPrefix(db, ms, |Pending(db, ms)|);
    } else {
      var v :| v in ms && v !in db.applied && v <= Current(db.applied);
      FrontOfOrder(Pending(db, ms), Missing(db, ms), |Pending(db, ms)|);
      assert v !in AfterFullRun(db, ms).applied;
    }
  }

  // ----- the runner -----

  class Database {
    var schema: seq<nat>
    var applied: set<nat>

    constructor ()
      ensures schema == [] && applied == {}
    {
      schema, applied := [], {};
    }

    method CurrentVersion() returns (v: nat)
      ensures v == Current(applied)
    {
      v := 0;
      var todo := applied;
      while todo != {}
        invariant todo <= applied && (v == 0 || v in applied)
        invariant forall x :: x in applied && x !in todo ==> x <= v
        decreases |todo|
      {
        var x :| x in todo;
        if x > v { v := x; }
        todo := todo - {x};
      }
    }

    /** Put a version where it belongs in an ascending list. */
    method Place(vs: seq<nat>, v: nat, ghost s: set<nat>) returns (placed: seq<nat>)
      requires Orders(vs, s) && v !in s
      ensures Orders(placed, s + {v})
    {
      var k := |vs|;
      while k > 0 && vs[k-1] > v
        invariant 0 <= k <= |vs|
        invariant forall i :: k <= i < |vs| ==> vs[i] > v
      {
        k := k - 1;
      }
      assert k > 0 ==> vs[k-1] in vs;
      placed := Inserted(vs, v, k, s);
    }

    method Inserted(vs: seq<nat>, v: nat, k: nat, ghost s: set<nat>) returns (placed: seq<nat>)
      requires Orders(vs, s) && v !in s && k <= |vs|
      requires (forall i :: k <= i < |vs| ==> vs[i] > v) && (k > 0 ==> vs[k-1] < v)
      ensures Orders(placed, s + {v})
    {
      placed := vs[..k] + [v] + vs[k..];
      assert vs == vs[..k] + vs[k..];
      var low, high := SetOf(vs[..k]), SetOf(vs[k..]);
      assert forall x :: x in low ==> x < v by {
        forall x | x in vs[..k] ensures x < v {
          var i :| 0 <= i < k && vs[i] == x;
          assert vs[i] <= vs[k-1];
        }
      }
      Joined(vs[..k], [v], low, {v});
      Joined(vs[..k] + [v], vs[k..], low + {v}, high);
      assert low + {v} + high == s + {v};
    }

    method PendingVersions(ms: seq<nat>) returns (pending: seq<nat>)
      requires forall i, j :: 0 <= i < j < |ms| ==> ms[i] != ms[j]
      ensures pending == Pending(Db(schema, applied), SetOf(ms))
    {
      var current := CurrentVersion();
      pending := [];
      ghost var s: set<nat> := {};
      for k := 0 to |ms|
        invariant Orders(pending, s) && forall v :: v in s <==> v in ms[..k] && v > current
      {
        assert ms[..k+1] == ms[..k] + [ms[k]];
        assert ms[k] !in ms[..k];
        if ms[k] > current {
          pending := Place(pending, ms[k], s);
          s := s + {ms[k]};
        }
      }
      assert ms[..|ms|] == ms;
      assert s == Missing(Db(schema, applied), SetOf(ms));
      OrderIs(pending, s);
    }

    /** Applies the pending migrations in order until one fails, or until the process dies after
        `alive` of them. */
    method RunMigrations(ms: seq<nat>, failing: set<nat>, alive: nat) returns (done: nat, ok: bool)
      requires forall i, j :: 0 <= i < j < |ms| ==> ms[i] != ms[j]
      modifies this
      ensures var db, vs := Db(old(schema), old(applied)), SetOf(ms);
        && done <= |Pending(db, vs)| && Db(schema, applied) == AfterRun(db, vs, done)
        && (ok <==> done == |Pending(db, vs)|)
        && done <= alive && (forall k :: 0 <= k < done ==> Pending(db, vs)[k] !in failing)
        && (!ok ==> done == alive || Pending(db, vs)[done] in failing)
      ensures failing !! (applied - old(applied))
    {
      var pending := PendingVersions(ms);
      done := 0;
      while done < |pending|
        invariant done <= |pending| && done <= alive
        invariant forall k :: 0 <= k < done ==> pending[k] !in failing
        invariant schema == old(schema) + pending[..done] && applied == old(applied) + SetOf(pending[..done])
      {
        if done == alive || pending[done] in failing { return done, false; }
        assert pending[..done+1] == pending[..done] + [pending[done]];
        schema, applied := schema + [pending[done]], applied + {pending[done]};
        done := done + 1;
      }
      ok := true;
    }
  }
}
