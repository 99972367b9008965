/**
 Retro curation: merge duplicates, promote retros worth surfacing, relegate promoted ones that have
 not been recalled for a number of runs, record the run.

 What the model judged equivalent, the value signal, the clock and the recall times are inputs; a
 pass may get any of them.
 */
module CurateRetros {
  import opened Wrappers

  type Id = string

  datatype Retro = Retro(
    createdAt: nat, occurrences: nat, promoted: bool, lastRecalled: Option<nat>, tombstoned: bool)

  /** `runs` holds the times of recorded runs; a time is recorded once. */
  datatype Db = Db(retros: map<Id, Retro>, runs: set<nat>)

  /** One judged pair, as the candidate builder oriented it. */
  datatype Judgment = Judgment(a: Id, b: Id, equivalent: bool)

  datatype Pass = Pass(judgments: seq<Judgment>, worthy: set<Id>, now: nat)

  // ----- merging -----

  /** The older retro stays; on equal times, the pair's first. */
  function Oriented(rs: map<Id, Retro>, j: Judgment): (Id, Id)
    requires j.a in rs && j.b in rs
  {
    if rs[j.a].createdAt <= rs[j.b].createdAt then (j.a, j.b) else (j.b, j.a)
  }

  predicate Live(rs: map<Id, Retro>, id: Id) {
    id in rs && !rs[id].tombstoned
  }

  /** The candidate builder pairs two different live retros, and each pair one way round only; a verdict
      given twice is about the same candidate. */
  predicate Judges(rs: map<Id, Retro>, js: seq<Judgment>) {
    && (forall j :: j in js ==> Live(rs, j.a) && Live(rs, j.b) && j.a != j.b)
    && (forall j, k :: j in js && k in js ==> !(j.a == k.b && j.b == k.a))
  }

  function MergeRetro(rs: map<Id, Retro>, canonical: Id, merged: Id): map<Id, Retro>
    requires canonical in rs && merged in rs
  {
    var rs1 := rs[canonical := rs[canonical].(occurrences := rs[canonical].occurrences + 1)];
    rs1[merged := rs1[merged].(tombstoned := true)]
  }

  /** Where the pairs judged equivalent are. */
  function EquivalentPairs(js: seq<Judgment>): set<nat> {
    set k | 0 <= k < |js| && js[k].equivalent
  }

  /** All equivalent pairs are merged, each oriented by the times read beforehand. */
  function Deduped(rs: map<Id, Retro>, js: seq<Judgment>): (r: map<Id, Retro>)
    requires Judges(rs, js)
    ensures r.Keys == rs.Keys
    ensures forall id :: id in rs ==>
      && r[id].createdAt == rs[id].createdAt && r[id].promoted == rs[id].promoted
      && r[id].lastRecalled == rs[id].lastRecalled
  {
    if js == [] then rs
    else
      var j := js[|js|-1];
      assert j in js;
      var init := Deduped(rs, js[..|js|-1]);
      if !j.equivalent then init
      else
        var (canonical, merged) := Oriented(rs, j);
        MergeRetro(init, canonical, merged)
  }

  /** The retro is the younger side of an equivalent pair. */
  ghost predicate MergedAway(rs: map<Id, Retro>, js: seq<Judgment>, id: Id)
    requires Judges(rs, js)
  {
    exists k :: 0 <= k < |js| && js[k].equivalent && Oriented(rs, js[k]).1 == id
  }

  lemma MergedSnoc(rs: map<Id, Retro>, init: seq<Judgment>, j: Judgment, id: Id)
    requires Judges(rs, init) && Judges(rs, init + [j]) && j.a in rs && j.b in rs
    ensures MergedAway(rs, init + [j], id) <==>
      MergedAway(rs, init, id) || (j.equivalent && Oriented(rs, j).1 == id)
  {
    var js := init + [j];
    assert js[|init|] == j;
    if MergedAway(rs, init, id) {
      var k :| 0 <= k < |init| && init[k].equivalent && Oriented(rs, init[k]).1 == id;
      assert js[k] == init[k];
    }
    if MergedAway(rs, js, id) {
      var k :| 0 <= k < |js| && js[k].equivalent && Oriented(rs, js[k]).1 == id;
      assert k < |init| ==> init[k] == js[k];
    }
  }

  lemma DedupedSnoc(rs: map<Id, Retro>, init: seq<Judgment>, j: Judgment, id: Id)
    requires Judges(rs, init) && Judges(rs, init + [j]) && Live(rs, j.a) && Live(rs, j.b) && id in rs
    ensures Deduped(rs, init + [j])[id].tombstoned <==>
      Deduped(rs, init)[id].tombstoned || (j.equivalent && Oriented(rs, j).1 == id)
  {
    assert (init + [j])[..|init|] == init;
  }

  /** A dedupe pass tombstones exactly the merged sides. */
  lemma {:induction false} DedupeTombstones(rs: map<Id, Retro>, js: seq<Judgment>, id: Id)
    requires Judges(rs, js) && id in rs
    ensures Deduped(rs, js)[id].tombstoned <==> rs[id].tombstoned || MergedAway(rs, js, id)
  {
    if js != [] {
      var init, j := js[..|js|-1], js[|js|-1];
      assert j in js && js == init + [j];
      DedupeTombstones(rs, init, id);
      DedupedSnoc(rs, init, j, id);
      MergedSnoc(rs, init, j, id);
    }
  }

  /** The pair keeps the retro that was created first; of two of the same age, its first one. */
  predicate Keeps(rs: map<Id, Retro>, j: Judgment, id: Id) {
    && j.a in rs && j.b in rs
    && if rs[j.b].createdAt < rs[j.a].createdAt then id == j.b else id == j.a
  }

  /** The equivalent pairs that keep the retro. */
  function MergesInto(rs: map<Id, Retro>, js: seq<Judgment>, id: Id): set<nat> {
    set k | 0 <= k < |js| && js[k].equivalent && Keeps(rs, js[k], id)
  }

  lemma CountsSnoc(rs: map<Id, Retro>, init: seq<Judgment>, j: Judgment, id: Id)
    requires Judges(rs, init) && Judges(rs, init + [j]) && Live(rs, j.a) && Live(rs, j.b) && id in rs
    ensures Deduped(rs, init + [j])[id].occurrences ==
      Deduped(rs, init)[id].occurrences + if j.equivalent && Keeps(rs, j, id) then 1 else 0
  {
    assert j in init + [j];
    assert (init + [j])[..|init|] == init;
  }

  lemma MergesSnoc(rs: map<Id, Retro>, init: seq<Judgment>, j: Judgment, id: Id)
    ensures |MergesInto(rs, init + [j], id)| ==
      |MergesInto(rs, init, id)| + if j.equivalent && Keeps(rs, j, id) then 1 else 0
  {
    var before, after := MergesInto(rs, init, id), MergesInto(rs, init + [j], id);
    assert after == before + if j.equivalent && Keeps(rs, j, id) then {|init|} else {};
  }

  /** A retro counts one occurrence more for each one merged into it. */
  lemma {:induction false} DedupeCounts(rs: map<Id, Retro>, js: seq<Judgment>, id: Id)
    requires Judges(rs, js) && id in rs
    ensures Deduped(rs, js)[id].occurrences == rs[id].occurrences + |MergesInto(rs, js, id)|
  {
    if js != [] {
      var init, j := js[..|js|-1], js[|js|-1];
      assert j in js && js == init + [j];
      DedupeCounts(rs, init, id);
      CountsSnoc(rs, init, j, id);
      MergesSnoc(rs, init, j, id);
    }
  }

  ghost predicate MergedInto(rs: map<Id, Retro>, js: seq<Judgment>, id: Id, into: Id)
    requires Judges(rs, js)
  {
    exists k :: 0 <= k < |js| && js[k].equivalent && Oriented(rs, js[k]) == (into, id)
  }

  /** Each retro on the path was merged into the next. */
  ghost predicate MergePath(rs: map<Id, Retro>, js: seq<Judgment>, path: seq<Id>)
    requires Judges(rs, js)
  {
    path != [] && forall i :: 0 <= i < |path| - 1 ==> MergedInto(rs, js, path[i], path[i+1])
  }

  /** A retro that stays holds what the merged one said. */
  ghost predicate Saved(rs: map<Id, Retro>, js: seq<Judgment>, id: Id)
    requires Judges(rs, js)
  {
    exists path: seq<Id> ::
      MergePath(rs, js, path) && path[0] == id && Live(Deduped(rs, js), path[|path|-1])
  }

  predicate Tied(rs: map<Id, Retro>, x: Id, y: Id) {
    Live(rs, x) && Live(rs, y) && x != y && rs[x].createdAt == rs[y].createdAt
  }

  /** No three live retros were created at the same time. */
  predicate AtMostTwoTied(rs: map<Id, Retro>) {
    forall x, y, z :: x in rs && y in rs && z in rs ==> !(Tied(rs, x, y) && Tied(rs, y, z) && Tied(rs, z, x))
  }

  lemma MergedIntoOlder(rs: map<Id, Retro>, js: seq<Judgment>, id: Id) returns (into: Id)
    requires Judges(rs, js) && MergedAway(rs, js, id)
    ensures MergedInto(rs, js, id, into) && Live(rs, id) && Live(rs, into) && into != id
    ensures rs[into].createdAt <= rs[id].createdAt
  {
    var k :| 0 <= k < |js| && js[k].equivalent && Oriented(rs, js[k]).1 == id;
    assert js[k] in js;
    into := Oriented(rs, js[k]).0;
  }

  /** Two retros of the same age are not merged into each other. */
  lemma NotBack(rs: map<Id, Retro>, js: seq<Judgment>, x: Id, y: Id)
    requires Judges(rs, js) && Tied(rs, x, y) && MergedInto(rs, js, x, y)
    ensures !MergedInto(rs, js, y, x)
  {
    var j :| 0 <= j < |js| && js[j].equivalent && Oriented(rs, js[j]) == (y, x);
    assert js[j] in js;
  }

  lemma OneStepEarlier(rs: map<Id, Retro>, js: seq<Judgment>, id: Id, path: seq<Id>)
    requires Judges(rs, js) && MergePath(rs, js, path) && MergedInto(rs, js, id, path[0])
    ensures MergePath(rs, js, [id] + path)
  {
    var longer := [id] + path;
    forall i | 0 <= i < |longer| - 1 ensures MergedInto(rs, js, longer[i], longer[i+1]) {
      if i > 0 { assert longer[i] == path[i-1] && longer[i+1] == path[i]; }
    }
  }

  /** Unless three live retros share a creation time, following merges leads to one that stays. */
  lemma OlderOneStays(rs: map<Id, Retro>, js: seq<Judgment>, id: Id) returns (path: seq<Id>)
    requires Judges(rs, js) && AtMostTwoTied(rs) && Live(rs, id)
    ensures MergePath(rs, js, path) && path[0] == id
    ensures Live(Deduped(rs, js), path[|path|-1]) && rs[path[|path|-1]].createdAt <= rs[id].createdAt
    decreases rs[id].createdAt
  {
    DedupeTombstones(rs, js, id);
    path := [id];
    if MergedAway(rs, js, id) {
      var into := MergedIntoOlder(rs, js, id);
      if rs[into].createdAt < rs[id].createdAt {
        path := OlderOneStays(rs, js, into);
      } else {
        path := [into];
        DedupeTombstones(rs, js, into);
        if MergedAway(rs, js, into) {
          var next := MergedIntoOlder(rs, js, into);
          NotBack(rs, js, id, into);
          assert !(Tied(rs, id, into) && Tied(rs, into, next) && Tied(rs, next, id));
          var rest := OlderOneStays(rs, js, next);
          OneStepEarlier(rs, js, into, rest);
          path := [into] + rest;
        }
      }
      OneStepEarlier(rs, js, id, path);
      path := [id] + path;
    }
  }

  /** Three retros of the same age, judged equivalent in a circle. */
  function Circle(x: Id, y: Id, z: Id): seq<Judgment> {
    [Judgment(x, y, true), Judgment(y, z, true), Judgment(z, x, true)]
  }

  lemma CircleCloses(rs: map<Id, Retro>, x: Id, y: Id, z: Id)
    requires Tied(rs, x, y) && Tied(rs, y, z) && Tied(rs, z, x)
    ensures Judges(rs, Circle(x, y, z))
    ensures forall id :: id in {x, y, z} ==> MergedAway(rs, Circle(x, y, z), id)
    ensures forall id, into :: MergedInto(rs, Circle(x, y, z), id, into) ==> into in {x, y, z}
  {
    var js := Circle(x, y, z);
    assert Oriented(rs, js[0]).1 == y && Oriented(rs, js[1]).1 == z && Oriented(rs, js[2]).1 == x;
  }

  lemma {:induction false} PathStaysIn(rs: map<Id, Retro>, js: seq<Judgment>, path: seq<Id>, s: set<Id>)
    requires Judges(rs, js) && MergePath(rs, js, path) && path[0] in s
    requires forall id, into :: MergedInto(rs, js, id, into) ==> into in s
    ensures path[|path|-1] in s
  {
    if |path| > 1 { assert MergedInto(rs, js, path[|path|-2], path[|path|-1]); }
  }

  lemma CircleVanishes(rs: map<Id, Retro>, x: Id, y: Id, z: Id)
    requires Tied(rs, x, y) && Tied(rs, y, z) && Tied(rs, z, x)
    ensures Judges(rs, Circle(x, y, z)) && !Saved(rs, Circle(x, y, z), x)
  {
    var js := Circle(x, y, z);
    CircleCloses(rs, x, y, z);
    forall path: seq<Id> | MergePath(rs, js, path) && path[0] == x
      ensures !Live(Deduped(rs, js), path[|path|-1])
    {
      PathStaysIn(rs, js, path, {x, y, z});
      DedupeTombstones(rs, js, path[|path|-1]);
    }
  }

  /** No verdicts can merge a retro away for good exactly when no three live ones are of the same age. */
  lemma AllSavedIff(rs: map<Id, Retro>)
    ensures AtMostTwoTied(rs) <==>
      forall js: seq<Judgment>, id: Id :: Judges(rs, js) && Live(rs, id) ==> Saved(rs, js, id)
  {
    if AtMostTwoTied(rs) {
      forall js: seq<Judgment>, id: Id | Judges(rs, js) && Live(rs, id) ensures Saved(rs, js, id) {
        var path := OlderOneStays(rs, js, id);
      }
    } else {
      var x, y, z :| x in rs && y in rs && z in rs && Tied(rs, x, y) && Tied(rs, y, z) && Tied(rs, z, x);
      CircleVanishes(rs, x, y, z);
    }
  }

  // ----- promotion and relegation -----

  /** Recorded runs strictly after a time. */
  function RunsSince(runs: set<nat>, since: nat): nat {
    |set r | r in runs && r > since|
  }

  /** Recalled once, but not during the last `limit` runs. */
  predicate Stale(runs: set<nat>, r: Retro, limit: nat) {
    r.lastRecalled.Some? && RunsSince(runs, r.lastRecalled.value) >= limit
  }

  predicate Promotes(db: Db, id: Id, worthy: set<Id>, limit: nat)
    requires id in db.retros
  {
    var r := db.retros[id];
    !r.tombstoned && !r.promoted && id in worthy && !Stale(db.runs, r, limit)
  }

  predicate Relegates(db: Db, id: Id, limit: nat)
    requires id in db.retros
  {
    var r := db.retros[id];
    !r.tombstoned && r.promoted && Stale(db.runs, r, limit)
  }

  function Promoted(db: Db, worthy: set<Id>, limit: nat): Db {
    db.(retros := map id | id in db.retros ::
      if Promotes(db, id, worthy, limit) then db.retros[id].(promoted := true) else db.retros[id])
  }

  function Relegated(db: Db, limit: nat): Db {
    db.(retros := map id | id in db.retros ::
      if Relegates(db, id, limit) then db.retros[id].(promoted := false) else db.retros[id])
  }

  function AfterPass(db: Db, p: Pass, limit: nat): Db
    requires Judges(db.retros, p.judgments)
  {
    var d := Db(Deduped(db.retros, p.judgments), db.runs);
    var r := Relegated(Promoted(d, p.worthy, limit), limit);
    r.(runs := r.runs + {p.now})
  }

  /** One pass never both promotes and relegates a retro, and relegates only what was recalled. */
  lemma PassMovesOneWay(db: Db, p: Pass, limit: nat, id: Id)
    requires Judges(db.retros, p.judgments) && id in db.retros
    ensures var d := Db(Deduped(db.retros, p.judgments), db.runs);
      && (Promotes(d, id, p.worthy, limit) ==> !Relegates(Promoted(d, p.worthy, limit), id, limit))
      && (Relegates(Promoted(d, p.worthy, limit), id, limit) ==>
            db.retros[id].promoted && db.retros[id].lastRecalled.Some?)
      && (AfterPass(db, p, limit).retros[id].promoted !=  db.retros[id].promoted ==>
            (Promotes(d, id, p.worthy, limit) <==> !Relegates(Promoted(d, p.worthy, limit), id, limit)))
  {
  }

  /** What a pass makes of a retro's flag: one that was merged away keeps it; any other has it afterwards exactly
      when it had it or is worthy, and it was never recalled or fewer runs than the limit are recorded since. */
  lemma FlagAfterPassIff(db: Db, p: Pass, limit: nat, id: Id)
    requires Judges(db.retros, p.judgments) && id in db.retros
    ensures var r := db.retros[id];
      var merged := r.tombstoned || MergedAway(db.retros, p.judgments, id);
      var recent := r.lastRecalled.None? || |set t | t in db.runs && r.lastRecalled.value < t| < limit;
      AfterPass(db, p, limit).retros[id].promoted <==>
        if merged then r.promoted else recent && (r.promoted || id in p.worthy)
    ensures AfterPass(db, p, limit).runs == db.runs + {p.now}
  {
    DedupeTombstones(db.retros, p.judgments, id);
    if db.retros[id].lastRecalled.Some? {
      var since := db.retros[id].lastRecalled.value;
      assert (set t | t in db.runs && since < t) == (set t | t in db.runs && t > since);
    }
  }

  function PromotedIds(db: Db, worthy: set<Id>, limit: nat): set<Id> {
    set id | id in db.retros && Promotes(db, id, worthy, limit)
  }

  function RelegatedIds(db: Db, limit: nat): set<Id> {
    set id | id in db.retros && Relegates(db, id, limit)
  }

  /** The retros whose flag went up. */
  function Raised(before: map<Id, Retro>, after: map<Id, Retro>): set<Id> {
    set id | id in before && id in after && !before[id].promoted && after[id].promoted
  }

  /** The retros a pass selects are those whose flag it changes. */
  lemma SelectedAreChanged(db: Db, p: Pass, limit: nat)
    requires Judges(db.retros, p.judgments)
    ensures var after, d := AfterPass(db, p, limit).retros, Db(Deduped(db.retros, p.judgments), db.runs);
      && PromotedIds(d, p.worthy, limit) == Raised(db.retros, after)
      && RelegatedIds(Promoted(d, p.worthy, limit), limit) == Raised(after, db.retros)
  {
    var after, d := AfterPass(db, p, limit).retros, Db(Deduped(db.retros, p.judgments), db.runs);
    forall id ensures id in PromotedIds(d, p.worthy, limit) <==> id in Raised(db.retros, after) {}
    forall id
      ensures id in RelegatedIds(Promoted(d, p.worthy, limit), limit) <==> id in Raised(after, db.retros) {}
  }

  // ----- many passes -----

  /** The pass is later than every recorded run and every recall. */
  predicate Clocked(db: Db, now: nat) {
    && (forall r :: r in db.runs ==> r < now)
    && (forall id :: id in db.retros && db.retros[id].lastRecalled.Some? ==> db.retros[id].lastRecalled.value < now)
  }

  /** Passes one after the other, with no recall in between; each reads the limit configured then. */
  ghost predicate IsRun(dbs: seq<Db>, ps: seq<Pass>, limits: seq<nat>) {
    && |dbs| == |ps| + 1 && |limits| == |ps|
    && forall k :: 0 <= k < |ps| ==> IsPass(dbs[k], ps[k], limits[k], dbs[k+1])
  }

  ghost predicate IsPass(db: Db, p: Pass, limit: nat, after: Db) {
    Judges(db.retros, p.judgments) && Clocked(db, p.now) && after == AfterPass(db, p, limit)
  }

  lemma LaterRunCounts(runs: set<nat>, later: nat, since: nat)
    requires later !in runs && later > since
    ensures RunsSince(runs + {later}, since) == RunsSince(runs, since) + 1
  {
    var x, y := set r | r in runs && r > since, set r | r in runs + {later} && r > since;
    assert y == x + {later};
  }

  /** How many runs a recalled retro has gone without a recall. */
  function Age(db: Db, id: Id): nat
    requires id in db.retros
  {
    if db.retros[id].lastRecalled.Some? then RunsSince(db.runs, db.retros[id].lastRecalled.value) else 0
  }

  /** A pass makes a recalled retro one run older; one at least `limit` runs old is not promoted after it,
      and only such a one loses its flag. */
  lemma PassAges(db: Db, p: Pass, limit: nat, id: Id)
    requires Judges(db.retros, p.judgments) && Clocked(db, p.now) && id in db.retros
    ensures var after := AfterPass(db, p, limit);
      && id in after.retros && after.retros[id].lastRecalled == db.retros[id].lastRecalled
      && (db.retros[id].lastRecalled.Some? ==> Age(after, id) == Age(db, id) + 1)
      && (Stale(db.runs, db.retros[id], limit) && !db.retros[id].promoted ==> !after.retros[id].promoted)
      && (db.retros[id].promoted && !after.retros[id].promoted ==> Stale(db.runs, db.retros[id], limit))
  {
    var r := db.retros[id];
    if r.lastRecalled.Some? { LaterRunCounts(db.runs, p.now, r.lastRecalled.value); }
  }

  /** After k passes a recalled retro is k runs older. */
  lemma {:induction false} RunAges(dbs: seq<Db>, ps: seq<Pass>, limits: seq<nat>, id: Id, k: nat)
    requires IsRun(dbs, ps, limits) && k <= |ps| && id in dbs[0].retros
    ensures id in dbs[k].retros && dbs[k].retros[id].lastRecalled == dbs[0].retros[id].lastRecalled
    ensures dbs[0].retros[id].lastRecalled.Some? ==> Age(dbs[k], id) == Age(dbs[0], id) + k
  {
    if 0 < k {
      RunAges(dbs, ps, limits, id, k - 1);
      assert IsPass(dbs[k-1], ps[k-1], limits[k-1], dbs[k]);
      PassAges(dbs[k-1], ps[k-1], limits[k-1], id);
    }
  }

  /** An unpromoted retro stays so while every pass finds it at least as old as its limit. */
  lemma {:induction false} DemotedStays(dbs: seq<Db>, ps: seq<Pass>, limits: seq<nat>, id: Id, i: nat, k: nat)
    requires IsRun(dbs, ps, limits) && i <= k <= |ps| && id in dbs[0].retros
    requires dbs[0].retros[id].lastRecalled.Some?
    requires forall m :: i <= m < k ==> limits[m] <= Age(dbs[0], id) + m
    requires !Flag(dbs[i], id)
    ensures !Flag(dbs[k], id)
    decreases k
  {
    if i < k {
      DemotedStays(dbs, ps, limits, id, i, k - 1);
      RunAges(dbs, ps, limits, id, k - 1);
      assert IsPass(dbs[k-1], ps[k-1], limits[k-1], dbs[k]);
      PassAges(dbs[k-1], ps[k-1], limits[k-1], id);
    }
  }

  /** A retro that lost its flag lost it in a pass that found it stale. */
  lemma {:induction false} DemotedByStaleness(
      dbs: seq<Db>, ps: seq<Pass>, limits: seq<nat>, id: Id, i: nat, j: nat) returns (m: nat)
    requires IsRun(dbs, ps, limits) && i <= j <= |ps| && id in dbs[0].retros
    requires Flag(dbs[i], id) && !Flag(dbs[j], id)
    ensures i <= m < j && !Flag(dbs[m+1], id)
    ensures dbs[0].retros[id].lastRecalled.Some? && limits[m] <= Age(dbs[0], id) + m
    decreases j
  {
    RunAges(dbs, ps, limits, id, j - 1);
    assert IsPass(dbs[j-1], ps[j-1], limits[j-1], dbs[j]);
    PassAges(dbs[j-1], ps[j-1], limits[j-1], id);
    if Flag(dbs[j-1], id) {
      m := j - 1;
    } else {
      m := DemotedByStaleness(dbs, ps, limits, id, i, j - 1);
    }
  }

  /** From no pass to a later one does the limit grow by more than the passes in between, except up to
      the number of passes made by then. */
  predicate KeepsPace(limits: seq<nat>) {
    forall a, b :: 0 <= a < b < |limits| ==> !Outruns(limits, a, b)
  }

  predicate Outruns(limits: seq<nat>, a: nat, b: nat)
    requires a < b < |limits|
  {
    limits[b] > limits[a] + (b - a) && limits[b] > b
  }

  predicate Flag(db: Db, id: Id) {
    id in db.retros && db.retros[id].promoted
  }

  /** The flag goes down and up again. */
  ghost predicate Oscillates(dbs: seq<Db>, id: Id) {
    exists i: nat, j: nat, k: nat :: i <= j <= k < |dbs|
      && Flag(dbs[i], id) && !Flag(dbs[j], id) && Flag(dbs[k], id)
  }

  /** Over any passes without a new recall, under a limit that keeps pace, the passes after which a
      retro is promoted are consecutive: its flag reads 0..0 1..1 0..0, and never goes up again. */
  lemma NoOscillation(dbs: seq<Db>, ps: seq<Pass>, limits: seq<nat>, id: Id)
    requires IsRun(dbs, ps, limits) && KeepsPace(limits) && id in dbs[0].retros
    ensures !Oscillates(dbs, id)
  {
    forall i: nat, j: nat, k: nat | i <= j <= k < |dbs| && Flag(dbs[i], id) && !Flag(dbs[j], id)
      ensures !Flag(dbs[k], id)
    {
      var m := DemotedByStaleness(dbs, ps, limits, id, i, j);
      forall n | m + 1 <= n < k ensures limits[n] <= Age(dbs[0], id) + n { assert !Outruns(limits, m, n); }
      DemotedStays(dbs, ps, limits, id, m + 1, k);
    }
  }

  function FirstTimes(c: nat): (times: set<nat>)
    ensures forall r :: r in times ==> 0 < r <= c
  {
    if c == 0 then {} else FirstTimes(c - 1) + {c}
  }

  lemma {:induction false} FirstTimesCount(c: nat)
    ensures RunsSince(FirstTimes(c), 0) == c
  {
    if 0 < c {
      FirstTimesCount(c - 1);
      LaterRunCounts(FirstTimes(c - 1), c, 0);
    }
  }

  /** n passes after c recorded runs, which all find the retro worth promoting. */
  function Eager(c: nat, n: nat): (ps: seq<Pass>)
    ensures |ps| == n && forall k :: 0 <= k < n ==> ps[k] == Pass([], {"x"}, c + k + 1)
  {
    seq(n, k requires 0 <= k < n => Pass([], {"x"}, c + k + 1))
  }

  /** A retro recalled at time 0, and runs at the times 1..c. */
  predicate Recalled(db: Db, c: nat) {
    && db.runs == FirstTimes(c) && db.retros.Keys == {"x"}
    && !db.retros["x"].tombstoned && db.retros["x"].lastRecalled == Some(0)
  }

  lemma EagerPass(db: Db, c: nat, limit: nat)
    requires Recalled(db, c)
    ensures var p := Pass([], {"x"}, c + 1);
      && IsPass(db, p, limit, AfterPass(db, p, limit)) && Recalled(AfterPass(db, p, limit), c + 1)
      && (Flag(AfterPass(db, p, limit), "x") <==> c < limit)
  {
    FirstTimesCount(c);
  }

  lemma OnePassMore(dbs: seq<Db>, ps: seq<Pass>, limits: seq<nat>, p: Pass, limit: nat, after: Db)
    requires IsRun(dbs, ps, limits) && IsPass(dbs[|ps|], p, limit, after)
    ensures IsRun(dbs + [after], ps + [p], limits + [limit])
  {
    var (dbs', ps', limits') := (dbs + [after], ps + [p], limits + [limit]);
    forall k | 0 <= k < |ps'| ensures IsPass(dbs'[k], ps'[k], limits'[k], dbs'[k+1]) {
      if k < |ps| { assert IsPass(dbs[k], ps[k], limits[k], dbs[k+1]); }
    }
  }

  lemma {:induction false} EagerRun(db: Db, c: nat, limits: seq<nat>) returns (dbs: seq<Db>)
    requires Recalled(db, c)
    ensures IsRun(dbs, Eager(c, |limits|), limits) && dbs[0] == db
    ensures forall m :: 0 <= m < |dbs| ==> Recalled(dbs[m], c + m)
    ensures forall m :: 0 <= m < |limits| ==> (Flag(dbs[m+1], "x") <==> c + m < limits[m])
  {
    if limits == [] {
      dbs := [db];
    } else {
      var n := |limits| - 1;
      var init := EagerRun(db, c, limits[..n]);
      var after := EagerNext(init, c, limits, n);
      dbs := init + [after];
    }
  }

  lemma EagerNext(init: seq<Db>, c: nat, limits: seq<nat>, n: nat) returns (after: Db)
    requires |limits| == n + 1 && IsRun(init, Eager(c, n), limits[..n]) && Recalled(init[n], c + n)
    ensures IsRun(init + [after], Eager(c, |limits|), limits)
    ensures Recalled(after, c + n + 1) && (Flag(after, "x") <==> c + n < limits[n])
  {
    var p := Pass([], {"x"}, c + n + 1);
    after := AfterPass(init[n], p, limits[n]);
    EagerPass(init[n], c + n, limits[n]);
    OnePassMore(init, Eager(c, n), limits[..n], p, limits[n], after);
    assert Eager(c, n) + [p] == Eager(c, n + 1) && limits[..n] + [limits[n]] == limits;
  }

  /** Wherever the limit outruns the passes, some retro goes down under the lower one and up under the
      higher. */
  lemma FastRiseOscillates(limits: seq<nat>, a: nat, b: nat) returns (c: nat, dbs: seq<Db>)
    requires a < b < |limits| && Outruns(limits, a, b)
    ensures IsRun(dbs, Eager(c, |limits|), limits) && "x" in dbs[0].retros && Oscillates(dbs, "x")
  {
    c := if limits[a] > a then limits[a] - a else 0;
    dbs := EagerRun(Db(map["x" := Retro(1, 9, true, Some(0), false)], FirstTimes(c)), c, limits);
    assert Flag(dbs[0], "x") && !Flag(dbs[a+1], "x") && Flag(dbs[b+1], "x");
  }

  /** Curation cannot oscillate exactly under limits that keep pace with the passes. */
  lemma NoOscillationIff(limits: seq<nat>)
    ensures KeepsPace(limits) <==>
      forall dbs: seq<Db>, ps: seq<Pass>, id: Id ::
        IsRun(dbs, ps, limits) && id in dbs[0].retros ==> !Oscillates(dbs, id)
  {
    if KeepsPace(limits) {
      forall dbs: seq<Db>, ps: seq<Pass>, id: Id | IsRun(dbs, ps, limits) && id in dbs[0].retros
        ensures !Oscillates(dbs, id)
      {
        NoOscillation(dbs, ps, limits, id);
      }
    } else {
      var a: nat, b: nat :| a < b < |limits| && Outruns(limits, a, b);
      var c, dbs := FastRiseOscillates(limits, a, b);
    }
  }

  /** A retro that was never recalled is never relegated. */
  lemma {:induction false} NeverRecalledStays(
      dbs: seq<Db>, ps: seq<Pass>, limits: seq<nat>, id: Id, i: nat, k: nat)
    requires IsRun(dbs, ps, limits) && i <= k <= |ps| && id in dbs[0].retros
    requires dbs[0].retros[id].lastRecalled.None?
    ensures Flag(dbs[i], id) ==> Flag(dbs[k], id)
    decreases k
  {
    if i < k {
      NeverRecalledStays(dbs, ps, limits, id, i, k - 1);
      RunAges(dbs, ps, limits, id, k - 1);
      assert IsPass(dbs[k-1], ps[k-1], limits[k-1], dbs[k]);
      PassAges(dbs[k-1], ps[k-1], limits[k-1], id);
    }
  }

  // ----- the passes as they run -----

  class Curator {
    var retros: map<Id, Retro>
    var runs: set<nat>

    constructor (r: map<Id, Retro>)
      ensures retros == r && runs == {}
    {
      retros, runs := r, {};
    }

    /** Merges the equivalent pairs, oriented by the rows as the candidates were read. */
    method Dedupe(js: seq<Judgment>, dryRun: bool) returns (merged: nat)
      requires Judges(retros, js)
      modifies this`retros
      ensures merged == |EquivalentPairs(js)|
      ensures retros == if dryRun then old(retros) else Deduped(old(retros), js)
    {
      var before := retros;
      merged := 0;
      for k := 0 to |js|
        invariant merged == |EquivalentPairs(js[..k])|
        invariant retros == if dryRun then old(retros) else Deduped(old(retros), js[..k])
      {
        assert js[k] in js && js[..k+1][..k] == js[..k];
        assert EquivalentPairs(js[..k+1]) == EquivalentPairs(js[..k]) + if js[k].equivalent then {k} else {};
        if js[k].equivalent {
          if !dryRun {
            var (canonical, dup) := Oriented(before, js[k]);
            retros := MergeRetro(retros, canonical, dup);
          }
          merged := merged + 1;
        }
      }
      assert js[..|js|] == js;
    }

    /** Sets the flag of the selected retros one by one. */
    method SetFlags(ids: set<Id>, flag: bool)
      requires ids <= retros.Keys
      modifies this`retros
      ensures retros == map id | id in old(retros) ::
        if id in ids then old(retros)[id].(promoted := flag) else old(retros)[id]
    {
      var todo := ids;
      while todo != {}
        invariant todo <= ids && retros.Keys == old(retros.Keys)
        invariant forall id :: id in retros ==>
          retros[id] == if id in ids && id !in todo then old(retros)[id].(promoted := flag) else old(retros)[id]
        decreases |todo|
      {
        var id :| id in todo;
        retros := retros[id := retros[id].(promoted := flag)];
        todo := todo - {id};
      }
    }

    method Promote(worthy: set<Id>, limit: nat, dryRun: bool) returns (promoted: nat)
      modifies this`retros
      ensures promoted == |PromotedIds(Db(old(retros), runs), worthy, limit)|
      ensures retros == if dryRun then old(retros) else Promoted(Db(old(retros), runs), worthy, limit).retros
    {
      var toPromote := PromotedIds(Db(retros, runs), worthy, limit);
      promoted := |toPromote|;
      if !dryRun { SetFlags(toPromote, true); }
    }

    method Relegate(limit: nat, dryRun: bool) returns (relegated: nat)
      modifies this`retros
      ensures relegated == |RelegatedIds(Db(old(retros), runs), limit)|
      ensures retros == if dryRun then old(retros) else Relegated(Db(old(retros), runs), limit).retros
    {
      var toRelegate := RelegatedIds(Db(retros, runs), limit);
      relegated := |toRelegate|;
      if !dryRun { SetFlags(toRelegate, false); }
    }

    /** Merge, promote, relegate, record; a dry run only counts, over the retros as they are.  The counts are
        those of the equivalent pairs and of the flags that went up and down. */
    method RunCurationPasses(p: Pass, limit: nat, dryRun: bool) returns (merged: nat, promoted: nat, relegated: nat)
      requires Judges(retros, p.judgments)
      modifies this
      ensures dryRun ==> retros == old(retros) && runs == old(runs)
      ensures !dryRun ==> Db(retros, runs) == AfterPass(Db(old(retros), old(runs)), p, limit)
      ensures merged == |EquivalentPairs(p.judgments)|
      ensures !dryRun ==> promoted == |Raised(old(retros), retros)| && relegated == |Raised(retros, old(retros))|
      ensures dryRun ==>
        && promoted == |PromotedIds(Db(retros, runs), p.worthy, limit)|
        && relegated == |RelegatedIds(Db(retros, runs), limit)|
    {
      SelectedAreChanged(Db(retros, runs), p, limit);
      merged := Dedupe(p.judgments, dryRun);
      promoted := Promote(p.worthy, limit, dryRun);
      relegated := Relegate(limit, dryRun);
      if !dryRun { runs := runs + {p.now}; }
    }
  }
}
