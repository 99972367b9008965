/**
 Layout migrations that stop half-way.  A page is renamed by way of a staging name; when its target is
 taken it stays there, where neither the planner nor any reader looks.  The module says exactly when that
 happens, what it leaves behind, and that migrating again goes on without the page.
 */
module LayoutStops {
  import opened Wrappers
  import opened Layout
  import opened LayoutResult

  // ----- a migration that stops -----

  predicate Stops(l: Listing, files: Files, i: nat)
    requires i < |l.canonical|
  {
    Blocked(l, i) || StageTaken(l, files, i)
  }

  predicate NoneStops(l: Listing, files: Files, lo: nat) {
    forall i :: lo <= i < |l.canonical| ==> !Stops(l, files, i)
  }

  /** The renumberings of the pages from i on, highest first. */
  function FromTop(l: Listing, i: nat): (ms: seq<Move>)
    requires i <= |l.canonical|
    ensures |ms| == |l.canonical| - i
  {
    DescendingAt(l, |l.canonical|);
    Descending(l, |l.canonical|)[..|l.canonical|-i]
  }

  lemma FromTopIsFree(l: Listing, files: Files, lo: nat)
    requires Lists(l, files) && lo <= |l.canonical|
    requires forall i :: lo <= i < |l.canonical| ==> !Blocked(l, i)
    ensures FreeInTurn(files, FromTop(l, lo)) && Distinct(FromTop(l, lo))
    ensures forall k :: 0 <= k < |FromTop(l, lo)| ==> FromTop(l, lo)[k].source in files
  {
    var n, top := |l.canonical|, FromTop(l, lo);
    DescendingAt(l, n);
    DescendingDistinct(l);
    forall k | 0 <= k < |top| ensures top[k].source in files {
      assert l.canonical[n-1-k] in l.canonical;
    }
    forall k | 0 <= k < |top| && top[k].target in files ensures IsSource(top[..k+1], top[k].target) {
      FreeAt(l, files, lo, k);
    }
  }

  lemma FreeAt(l: Listing, files: Files, lo: nat, k: nat)
    requires Lists(l, files) && lo <= |l.canonical| && k < |FromTop(l, lo)|
    requires !Blocked(l, |l.canonical| - 1 - k) && FromTop(l, lo)[k].target in files
    ensures IsSource(FromTop(l, lo)[..k+1], FromTop(l, lo)[k].target)
  {
    var i := |l.canonical| - 1 - k;
    TopAt(l, lo, k);
    TargetSeenTo(l, files, i);
    SeenTo(l, i, Renumber(l, i).target);
  }

  lemma TopAt(l: Listing, lo: nat, k: nat)
    requires lo <= |l.canonical| && k < |FromTop(l, lo)|
    ensures |Descending(l, |l.canonical|)| == |l.canonical|
    ensures FromTop(l, lo)[k] == Renumber(l, |l.canonical| - 1 - k)
    ensures FromTop(l, lo)[..k+1] == Descending(l, |l.canonical|)[..k+1]
  {
    DescendingAt(l, |l.canonical|);
  }

  /** While no page stops it, renumbering from the top goes through. */
  lemma TopGoesThrough(l: Listing, files: Files, lo: nat) returns (high: seq<Move>, f: Files)
    requires Lists(l, files) && lo <= |l.canonical| && NoneStops(l, files, lo)
    ensures high == Backwards(RenumbersFrom(l, lo, |l.canonical|))
    ensures RunMoves(files, ThroughStaging(high)) == (f, true) && AllMoved(files, FromTop(l, lo), f)
  {
    f := TopMoves(l, files, lo);
    high := TopByStages(l, files, lo, f);
  }

  lemma TopByStages(l: Listing, files: Files, lo: nat, f: Files) returns (high: seq<Move>)
    requires lo <= |l.canonical| && NoneStops(l, files, lo) && RunMoves(files, FromTop(l, lo)) == (f, true)
    ensures high == Backwards(RenumbersFrom(l, lo, |l.canonical|))
    ensures RunMoves(files, ThroughStaging(high)) == (f, true)
  {
    high := Backwards(RenumbersFrom(l, lo, |l.canonical|));
    IdleRenumbers(l, lo, |l.canonical|, files);
    forall i | lo <= i < |l.canonical| ensures !StageTaken(l, files, i) { assert !Stops(l, files, i); }
    HighPart(l, files, lo);
    ThroughStagingIff(files, high);
  }

  lemma TopMoves(l: Listing, files: Files, lo: nat) returns (f: Files)
    requires Lists(l, files) && lo <= |l.canonical|
    requires NoneStops(l, files, lo)
    ensures RunMoves(files, FromTop(l, lo)) == (f, true) && AllMoved(files, FromTop(l, lo), f)
  {
    forall i | lo <= i < |l.canonical| ensures !Blocked(l, i) { assert !Stops(l, files, i); }
    FromTopIsFree(l, files, lo);
    RunMovesIff(files, FromTop(l, lo));
    f := RunMoves(files, FromTop(l, lo)).0;
  }

  lemma HighPart(l: Listing, files: Files, lo: nat)
    requires lo <= |l.canonical| && forall i :: lo <= i < |l.canonical| ==> !StageTaken(l, files, i)
    ensures var high := Backwards(RenumbersFrom(l, lo, |l.canonical|)); Stageable(high) && StagesFree(files, high)
  {
    var n := |l.canonical|;
    RenumbersFromAre(l, lo, n);
    var ms := RenumbersFrom(l, lo, n);
    forall m | m in Backwards(ms)
      ensures m.source.Canonical? && m.target.Canonical? && m.source != m.target && Staged(m.source.name) !in files
    {
      assert m in ms;
      var i :| lo <= i < n && m == Renumber(l, i) && m.source != m.target;
      assert !StageTaken(l, files, i);
    }
  }

  lemma {:induction false} RenumbersFromAre(l: Listing, lo: nat, n: nat)
    requires lo <= n <= |l.canonical|
    ensures forall m :: m in RenumbersFrom(l, lo, n) ==>
      exists i :: lo <= i < n && m == Renumber(l, i) && m.source != m.target
    decreases n
  {
    if lo < n {
      RenumbersFromAre(l, lo, n - 1);
      forall m | m in RenumbersFrom(l, lo, n)
        ensures exists i :: lo <= i < n && m == Renumber(l, i) && m.source != m.target
      {
        if m in RenumbersFrom(l, lo, n - 1) {
          var i :| lo <= i < n - 1 && m == Renumber(l, i) && m.source != m.target;
        } else {
          assert m == Renumber(l, n - 1);
        }
      }
    }
  }

  /** The `git mv`s of all pages above i, then those of i, then the rest. */
  lemma RenamesSplit(l: Listing, i: nat) returns (rest: seq<Move>)
    requires i < |l.canonical| && Renumber(l, i).source != Renumber(l, i).target
    ensures Renames(FullPlan(l)) ==
      ThroughStaging(Backwards(RenumbersFrom(l, i + 1, |l.canonical|)) + [Renumber(l, i)]) + rest
  {
    var m, low, high := Renumber(l, i), Renumbers(l, i), RenumbersFrom(l, i + 1, |l.canonical|);
    RenumbersSplit(l, i + 1, |l.canonical|);
    assert Renumbers(l, |l.canonical|) == low + [m] + high;
    rest := SplitAt(low, m, high, Moves(l));
  }

  lemma SplitAt(low: seq<Move>, m: Move, high: seq<Move>, moves: seq<Move>) returns (rest: seq<Move>)
    ensures ThroughStaging(Backwards(low + [m] + high)) + moves == ThroughStaging(Backwards(high) + [m]) + rest
  {
    BackwardsConcat(low + [m], high);
    BackwardsSnoc(low, m);
    assert Backwards(low + [m] + high) == (Backwards(high) + [m]) + Backwards(low);
    ThroughConcat(Backwards(high) + [m], Backwards(low));
    rest := ThroughStaging(Backwards(low)) + moves;
  }

  /** The highest page that stops the renumbering decides where the migration ends. */
  lemma StopsHere(l: Listing, files: Files, i: nat) returns (f: Files)
    requires Lists(l, files) && TargetsDistinct(Steps(FullPlan(l)))
    requires i < |l.canonical| && Stops(l, files, i)
    requires NoneStops(l, files, i + 1)
    ensures AllMoved(files, FromTop(l, i + 1), f) && PageStands(l, files, i, f)
    ensures Outcome(l, files) == Pair(f, Renumber(l, i)) && !Pair(f, Renumber(l, i)).1
  {
    var high;
    high, f := TopGoesThrough(l, files, i + 1);
    PairStops(l, files, i, f);
    StopsThere(l, files, i, high, f);
  }

  lemma StopsThere(l: Listing, files: Files, i: nat, high: seq<Move>, f: Files)
    requires TargetsDistinct(Steps(FullPlan(l))) && i < |l.canonical|
    requires high == Backwards(RenumbersFrom(l, i + 1, |l.canonical|))
    requires RunMoves(files, ThroughStaging(high)) == (f, true)
    requires Renumber(l, i).source != Renumber(l, i).target && !Pair(f, Renumber(l, i)).1
    ensures Outcome(l, files) == Pair(f, Renumber(l, i))
  {
    var m := Renumber(l, i);
    var rest := RenamesSplit(l, i);
    OnePairMore(files, high, m, f);
    RunConcat(files, ThroughStaging(high + [m]), rest);
  }

  lemma PairStops(l: Listing, files: Files, i: nat, f: Files)
    requires Lists(l, files) && i < |l.canonical| && Stops(l, files, i)
    requires AllMoved(files, FromTop(l, i + 1), f)
    ensures PageStands(l, files, i, f) && !Pair(f, Renumber(l, i)).1
  {
    PageStaysAt(l, files, i, i, f);
    StagedAsListed(l, files, i + 1, f, Page(l.canonical[i]));
    if Blocked(l, i) {
      var j :| 0 <= j < i && Renumber(l, i).target == Renumber(l, j).source;
      PageStaysAt(l, files, i, j, f);
    }
  }

  /** Page i is still where it was, and its staging name as it was. */
  ghost predicate PageStands(l: Listing, files: Files, i: nat, f: Files)
    requires i < |l.canonical|
  {
    var source, stage := Renumber(l, i).source, Staged(Page(l.canonical[i]));
    && source != Renumber(l, i).target
    && source in files && source in f && f[source] == files[source]
    && (stage in f <==> stage in files)
  }

  /** Renumbering the pages above i touches no page up to it. */
  lemma PageStaysAt(l: Listing, files: Files, i: nat, j: nat, f: Files)
    requires Lists(l, files) && j <= i < |l.canonical| && AllMoved(files, FromTop(l, i + 1), f)
    ensures Renumber(l, j).source in files && Renumber(l, j).source in f
    ensures f[Renumber(l, j).source] == files[Renumber(l, j).source]
  {
    NotYetMoved(l, i, j);
    assert l.canonical[j] in l.canonical;
  }

  lemma FromTopIsCanonical(l: Listing, lo: nat, p: Path)
    requires lo <= |l.canonical| && !p.Canonical?
    ensures !IsSource(FromTop(l, lo), p) && !IsTarget(FromTop(l, lo), p)
  {
    DescendingAt(l, |l.canonical|);
  }

  lemma StagedAsListed(l: Listing, files: Files, lo: nat, f: Files, n: Name)
    requires lo <= |l.canonical| && AllMoved(files, FromTop(l, lo), f)
    ensures Staged(n) in f <==> Staged(n) in files
  {
    FromTopIsCanonical(l, lo, Staged(n));
  }

  lemma NotYetMoved(l: Listing, i: nat, j: nat)
    requires Ascending(l.canonical) && j <= i < |l.canonical|
    ensures !IsSource(FromTop(l, i + 1), Renumber(l, j).source)
  {
    DescendingAt(l, |l.canonical|);
  }

  /** Page i stops the migration by standing at its staging name: no page above it stops, and its own
      staging name is free. */
  predicate LeftStaged(l: Listing, files: Files, i: nat)
    requires i < |l.canonical|
  {
    Blocked(l, i) && !StageTaken(l, files, i) && NoneStops(l, files, i + 1)
  }

  /** Then the pages above are renumbered, that page is at its staging name, and every other file is where
      it was. */
  lemma BlockedMigration(l: Listing, files: Files, i: nat)
    requires Lists(l, files) && TargetsDistinct(Steps(FullPlan(l)))
    requires i < |l.canonical| && LeftStaged(l, files, i)
    ensures var (result, ok) := Outcome(l, files); !ok && StagedResult(l, files, i, result)
  {
    var f := StopsHere(l, files, i);
    TargetStillTaken(l, files, i, f);
    PairLeaves(f, Renumber(l, i));
    OneToStage(l, files, i, f);
  }

  ghost predicate StagedResult(l: Listing, files: Files, i: nat, result: Files)
    requires i < |l.canonical|
  {
    var source, stage := Renumber(l, i).source, Staged(Page(l.canonical[i]));
    && source in files && stage !in files && stage in result && result[stage] == files[source]
    && AllMoved(files, FromTop(l, i + 1) + [Move(source, stage)], result)
  }

  lemma PairLeaves(f: Files, m: Move)
    requires m.source.Canonical? && m.target.Canonical? && m.source != m.target
    requires m.source in f && Staged(m.source.name) !in f && m.target in f
    ensures var stage := Move(m.source, Staged(m.source.name));
      Renamed(f, stage).Some? && Pair(f, m) == (Renamed(f, stage).value, false)
  {
  }

  lemma TargetStillTaken(l: Listing, files: Files, i: nat, f: Files)
    requires Lists(l, files) && i < |l.canonical| && Blocked(l, i) && AllMoved(files, FromTop(l, i + 1), f)
    ensures Renumber(l, i).target in f && Renumber(l, i).source != Renumber(l, i).target
  {
    var j :| 0 <= j < i && Renumber(l, i).target == Renumber(l, j).source;
    PageStaysAt(l, files, i, j, f);
  }

  lemma StageComesNext(l: Listing, files: Files, i: nat)
    requires Lists(l, files) && i < |l.canonical| && LeftStaged(l, files, i)
    ensures FreeInTurn(files, FromTop(l, i + 1))
    ensures Distinct(FromTop(l, i + 1) + [Move(Renumber(l, i).source, Staged(Page(l.canonical[i])))])
  {
    var stage := Move(Renumber(l, i).source, Staged(Page(l.canonical[i])));
    forall k | i < k < |l.canonical| ensures !Blocked(l, k) { assert !Stops(l, files, k); }
    FromTopIsFree(l, files, i + 1);
    NotYetMoved(l, i, i);
    FromTopIsCanonical(l, i + 1, stage.target);
    DistinctMore(FromTop(l, i + 1), stage);
  }

  lemma OneMove(files: Files, ms: seq<Move>, m: Move, f: Files)
    requires Distinct(ms + [m]) && AllMoved(files, ms, f) && FreeInTurn(files, ms)
    requires m.source != m.target && m.source in files && m.source in f && f[m.source] == files[m.source]
    requires m.target !in f
    ensures Renamed(f, m).Some? && AllMoved(files, ms + [m], Renamed(f, m).value)
    ensures m.target in Renamed(f, m).value && Renamed(f, m).value[m.target] == files[m.source]
  {
    MoveKeeps(files, ms, m, f);
  }

  lemma OneToStage(l: Listing, files: Files, i: nat, f: Files)
    requires Lists(l, files) && i < |l.canonical| && AllMoved(files, FromTop(l, i + 1), f)
    requires PageStands(l, files, i, f) && LeftStaged(l, files, i)
    ensures StagedResult(l, files, i, Renamed(f, Move(Renumber(l, i).source, Staged(Page(l.canonical[i])))).value)
  {
    StageComesNext(l, files, i);
    OneMove(files, FromTop(l, i + 1), Move(Renumber(l, i).source, Staged(Page(l.canonical[i]))), f);
  }

  lemma DistinctMore(ms: seq<Move>, m: Move)
    requires Distinct(ms) && !IsSource(ms, m.source) && !IsTarget(ms, m.target)
    ensures Distinct(ms + [m])
  {
    var all := ms + [m];
    assert forall k :: 0 <= k < |ms| ==> all[k] == ms[k] && ms[k].source != m.source && ms[k].target != m.target;
  }

  lemma HighestStop(l: Listing, files: Files, i: nat) returns (top: nat)
    requires i < |l.canonical| && Stops(l, files, i)
    ensures i <= top < |l.canonical| && Stops(l, files, top)
    ensures NoneStops(l, files, top + 1)
    decreases |l.canonical| - i
  {
    if k :| i < k < |l.canonical| && Stops(l, files, k) { top := HighestStop(l, files, k); } else { top := i; }
  }

  /** Some page has to move onto a preceding one, and no staging name of that page or one above is taken. */
  predicate Stages(l: Listing, files: Files) {
    exists i :: 0 <= i < |l.canonical| && Blocked(l, i)
      && forall k :: i <= k < |l.canonical| ==> !StageTaken(l, files, k)
  }

  lemma StagesIff(l: Listing, files: Files)
    ensures Stages(l, files) <==> exists i :: 0 <= i < |l.canonical| && LeftStaged(l, files, i)
  {
    if Stages(l, files) {
      var i :| 0 <= i < |l.canonical| && Blocked(l, i)
        && forall k :: i <= k < |l.canonical| ==> !StageTaken(l, files, k);
      var top := HighestStop(l, files, i);
      assert !StageTaken(l, files, top);
      assert LeftStaged(l, files, top);
    }
    if i :| 0 <= i < |l.canonical| && LeftStaged(l, files, i) {
      forall k | i <= k < |l.canonical| ensures !StageTaken(l, files, k) {
        if k > i { assert !Stops(l, files, k); }
      }
    }
  }

  /** No other outcome puts a file at a staging name. */
  lemma OnlyBlockedStages(l: Listing, files: Files, n: Name)
    requires Lists(l, files) && Staged(n) in Outcome(l, files).0 && Staged(n) !in files
    ensures TargetsDistinct(Steps(FullPlan(l))) && Stages(l, files)
  {
    if i: nat :| i < |l.canonical| && Stops(l, files, i) {
      var top := HighestStop(l, files, i);
      var f := StopsHere(l, files, top);
      StagedAsListed(l, files, top + 1, f, n);
      assert LeftStaged(l, files, top);
      StagesIff(l, files);
    } else {
      NothingStaged(l, files, n);
      assert false;
    }
  }

  lemma NothingStaged(l: Listing, files: Files, n: Name)
    requires Lists(l, files) && TargetsDistinct(Steps(FullPlan(l)))
    requires NoneStops(l, files, 0)
    ensures Staged(n) in Outcome(l, files).0 <==> Staged(n) in files
  {
    var back := Backwards(Renumbers(l, |l.canonical|));
    RenumbersSplit(l, 0, |l.canonical|);
    assert Renumbers(l, 0) + RenumbersFrom(l, 0, |l.canonical|) == RenumbersFrom(l, 0, |l.canonical|);
    var high, f := TopGoesThrough(l, files, 0);
    StagedAsListed(l, files, 0, f, n);
    RunConcat(files, ThroughStaging(back), Moves(l));
    MovesAreUnstaged(l, files);
    UnstagedMoves(f, Moves(l), n);
  }

  lemma MovesAreUnstaged(l: Listing, files: Files)
    requires Lists(l, files)
    ensures forall m :: m in Moves(l) ==> !m.source.Staged? && !m.source.Canonical? && m.target.Canonical?
  {
    Kinds(l, files);
    MovesGrouped(l);
  }

  lemma {:induction false} UnstagedMoves(files: Files, ms: seq<Move>, n: Name)
    requires forall m :: m in ms ==> !m.source.Staged? && !m.target.Staged?
    ensures Staged(n) in RunMoves(files, ms).0 <==> Staged(n) in files
  {
    if ms != [] {
      assert ms[|ms|-1] in ms;
      UnstagedMoves(files, ms[..|ms|-1], n);
    }
  }

  // ----- what a migration may hide -----

  /** What the planner looks at, and readers with it: what is in the directory under its own name, pages
      with six digits, and what is listed outside. */
  predicate InView(p: Path) {
    (p.Canonical? && (p.name.Page? ==> p.name.num <= LAST_PAGE)) || ListedOutside(p)
  }

  /** Where a file ends up: where it was, or at the target of a rename. */
  lemma {:induction false} NowIsTarget(files: Files, ms: seq<Move>, p: Path)
    ensures Now(files, ms, p) == p || exists m :: m in ms && m.target == Now(files, ms, p)
  {
    if ms != [] {
      var init, m := ms[..|ms|-1], ms[|ms|-1];
      NowIsTarget(files, init, p);
      assert m in ms && forall x :: x in init ==> x in ms;
    }
  }

  lemma {:induction false} ThroughTargets(ms: seq<Move>)
    requires Stageable(ms)
    ensures forall m :: m in ThroughStaging(ms) ==> m.target.Staged? || exists x :: x in ms && x.target == m.target
  {
    if ms != [] {
      var init, last := ms[..|ms|-1], ms[|ms|-1];
      assert last in ms && forall x :: x in init ==> x in ms;
      ThroughTargets(init);
    }
  }

  /** What is carried out leads to staging names and to the targets of steps. */
  lemma ExecutedTargets(l: Listing, files: Files, m: Move)
    requires Lists(l, files) && m in Executed(FullPlan(l))
    ensures m.target.Staged? || exists x :: x in AllSteps(l) && x.target == m.target
  {
    var n := |l.canonical|;
    var back := Backwards(Renumbers(l, n));
    RenumbersAre(l, n);
    BackwardsRenumbers(l, n);
    assert Stageable(back);
    ThroughTargets(back);
    if m in Moves(l) {
      assert m in AllSteps(l);
    } else if !m.target.Staged? {
      var x :| x in back && x.target == m.target;
      assert x in AllSteps(l);
    }
  }

  lemma TargetsInView(l: Listing, files: Files, x: Move)
    requires Lists(l, files) && SixDigits(NumbersAfter(l)) && x in AllSteps(l)
    ensures InView(x.target)
  {
    AllTargetsCanonical(l, files);
    var k :| 0 <= k < |AllSteps(l)| && AllSteps(l)[k] == x;
    assert IsTarget(AllSteps(l), x.target);
    if x.target.name.Page? { TargetIsNumbered(l, files, x); }
  }

  /** A file goes out of view only by being left at a staging name. */
  lemma OutOfViewIsStaged(l: Listing, files: Files, p: Path)
    requires Lists(l, files) && SixDigits(NumbersAfter(l)) && p in files && InView(p)
    ensures var q := Now(files, Executed(FullPlan(l)), p); !InView(q) ==> q.Staged? && q !in files
  {
    var ms, q := Executed(FullPlan(l)), Now(files, Executed(FullPlan(l)), p);
    NowIsTarget(files, ms, p);
    if q != p {
      var m :| m in ms && m.target == q;
      ExecutedTargets(l, files, m);
      if !q.Staged? {
        var x :| x in AllSteps(l) && x.target == q;
        TargetsInView(l, files, x);
      }
    }
    if q.Staged? && q in files { NotOntoStaged(l, files, p, q.name); }
  }

  lemma NotOntoStaged(l: Listing, files: Files, p: Path, n: Name)
    requires Lists(l, files) && p in files && Staged(n) in files && p != Staged(n)
    ensures Now(files, Executed(FullPlan(l)), p) != Staged(n)
  {
    RenumbersAre(l, |l.canonical|);
    MovesAreUnstaged(l, files);
    StagedIsNow(files, FullPlan(l), n);
    RunConserves(files, Executed(FullPlan(l)));
  }

  /** As long as page numbers have six digits: a migration loses no content: each file is in one place afterwards, completed or not.  But it takes a
      page out of the planner's and the readers' view exactly when targets are distinct, some page has to
      move onto a preceding one, and no staging name of that page or one above is taken. */
  lemma VanishesIff(l: Listing, files: Files)
    requires Lists(l, files) && SixDigits(NumbersAfter(l))
    ensures Conserved(files, Executed(FullPlan(l)), Outcome(l, files).0)
    ensures (exists p :: Vanishes(l, files, p)) <==> TargetsDistinct(Steps(FullPlan(l))) && Stages(l, files)
  {
    RunConserves(files, Executed(FullPlan(l)));
    if TargetsDistinct(Steps(FullPlan(l))) && Stages(l, files) {
      var p := StagesVanish(l, files);
    } else {
      forall p ensures !Vanishes(l, files, p) {
        if Vanishes(l, files, p) { VanishingStages(l, files, p); }
      }
    }
  }

  lemma StagesVanish(l: Listing, files: Files) returns (p: Path)
    requires Lists(l, files) && TargetsDistinct(Steps(FullPlan(l))) && Stages(l, files)
    ensures Vanishes(l, files, p)
  {
    var i := StagedPage(l, files);
    p := Renumber(l, i).source;
    PageGoesToStage(l, files, i);
    PageExists(l, files, i);
  }

  lemma StagedPage(l: Listing, files: Files) returns (i: nat)
    requires Stages(l, files)
    ensures i < |l.canonical| && LeftStaged(l, files, i)
  {
    StagesIff(l, files);
    i :| 0 <= i < |l.canonical| && LeftStaged(l, files, i);
  }

  lemma PageExists(l: Listing, files: Files, i: nat)
    requires Lists(l, files) && i < |l.canonical|
    ensures Renumber(l, i).source in files && InView(Renumber(l, i).source)
  {
    assert l.canonical[i] in l.canonical;
    assert Renumber(l, i).source.name == Page(l.canonical[i]);
  }

  /** With nothing left over from an earlier migration, a page vanishes exactly when targets are distinct
      and some page has to move onto a preceding one. */
  lemma FirstTimeVanishesIff(l: Listing, files: Files)
    requires Lists(l, files) && SixDigits(NumbersAfter(l)) && StagingFree(l, files)
    ensures (exists p :: Vanishes(l, files, p)) <==> TargetsDistinct(Steps(FullPlan(l))) && !NoShiftDown(l)
  {
    VanishesIff(l, files);
    if !NoShiftDown(l) {
      var i, j :| 0 <= j < i < |l.canonical| && Renumber(l, i).target == Renumber(l, j).source;
      assert Blocked(l, i);
    }
  }

  /** The file was in view and no longer is. */
  predicate Vanishes(l: Listing, files: Files, p: Path) {
    p in files && InView(p) && !InView(Now(files, Executed(FullPlan(l)), p))
  }

  lemma VanishingStages(l: Listing, files: Files, p: Path)
    requires Lists(l, files) && SixDigits(NumbersAfter(l)) && Vanishes(l, files, p)
    ensures TargetsDistinct(Steps(FullPlan(l))) && Stages(l, files)
  {
    var n := NewlyStaged(l, files, p);
    OnlyBlockedStages(l, files, n);
  }

  lemma NewlyStaged(l: Listing, files: Files, p: Path) returns (n: Name)
    requires Lists(l, files) && SixDigits(NumbersAfter(l)) && Vanishes(l, files, p)
    ensures Staged(n) in Outcome(l, files).0 && Staged(n) !in files
  {
    RunConserves(files, Executed(FullPlan(l)));
    OutOfViewIsStaged(l, files, p);
    n := Now(files, Executed(FullPlan(l)), p).name;
  }

  /** The renames of the pages above i do not start from page i. */
  lemma HighSources(l: Listing, i: nat)
    requires Ascending(l.canonical) && i < |l.canonical|
    ensures forall m :: m in ThroughStaging(Backwards(RenumbersFrom(l, i + 1, |l.canonical|))) ==>
      m.source != Renumber(l, i).source
  {
    var n := |l.canonical|;
    var ms := RenumbersFrom(l, i + 1, n);
    RenumbersFromAre(l, i + 1, n);
    forall m | m in Backwards(ms) ensures m.source.Canonical? && m.source != Renumber(l, i).source {
      assert m in ms;
    }
    ThroughSources(Backwards(ms), Renumber(l, i).source);
  }

  lemma {:induction false} ThroughSources(ms: seq<Move>, p: Path)
    requires p.Canonical? && forall m :: m in ms ==> m.source != p
    ensures forall m :: m in ThroughStaging(ms) ==> m.source != p
  {
    if ms != [] {
      assert ms[|ms|-1] in ms;
      ThroughSources(ms[..|ms|-1], p);
    }
  }

  lemma GoesToStage(l: Listing, files: Files, i: nat, high: seq<Move>, f: Files)
    requires TargetsDistinct(Steps(FullPlan(l))) && Ascending(l.canonical) && i < |l.canonical|
    requires high == Backwards(RenumbersFrom(l, i + 1, |l.canonical|))
    requires RunMoves(files, ThroughStaging(high)) == (f, true)
    requires Renumber(l, i).source != Renumber(l, i).target && Renumber(l, i).target in f
    requires Renumber(l, i).source in f && Staged(Page(l.canonical[i])) !in f
    ensures Now(files, Executed(FullPlan(l)), Renumber(l, i).source) == Staged(Page(l.canonical[i]))
  {
    HighSources(l, i);
    var rest := RenamesSplit(l, i);
    NowAtStage(files, high, Renumber(l, i), f, rest);
  }

  /** The renames of the pages above i lead to files where page i can reach its staging name only. */
  lemma TopReady(l: Listing, files: Files, i: nat) returns (f: Files)
    requires Lists(l, files) && i < |l.canonical| && LeftStaged(l, files, i)
    ensures RunMoves(files, FromTop(l, i + 1)) == (f, true)
    ensures Renumber(l, i).source != Renumber(l, i).target && Renumber(l, i).target in f
    ensures Renumber(l, i).source in f && Staged(Page(l.canonical[i])) !in f
  {
    f := TopMoves(l, files, i + 1);
    StageReady(l, files, i, f);
  }

  lemma StageReady(l: Listing, files: Files, i: nat, f: Files)
    requires Lists(l, files) && i < |l.canonical| && Blocked(l, i) && !StageTaken(l, files, i)
    requires AllMoved(files, FromTop(l, i + 1), f)
    ensures Renumber(l, i).source != Renumber(l, i).target && Renumber(l, i).target in f
    ensures Renumber(l, i).source in f && Staged(Page(l.canonical[i])) !in f
  {
    PageStaysAt(l, files, i, i, f);
    StagedAsListed(l, files, i + 1, f, Page(l.canonical[i]));
    TargetStillTaken(l, files, i, f);
  }

  lemma PageGoesToStage(l: Listing, files: Files, i: nat)
    requires Lists(l, files) && TargetsDistinct(Steps(FullPlan(l)))
    requires i < |l.canonical| && LeftStaged(l, files, i)
    ensures Now(files, Executed(FullPlan(l)), Renumber(l, i).source) == Staged(Page(l.canonical[i]))
  {
    var f := TopReady(l, files, i);
    var high := TopByStages(l, files, i + 1, f);
    GoesToStage(l, files, i, high, f);
  }

  // ----- migrating again -----

  /** After a migration that left page i at its staging name the planner finds the pages before it and the
      renumbered pages above it, not the page itself, and outside the directory what it found before. */
  lemma NextListing(l: Listing, files: Files, i: nat, again: Listing)
    requires Lists(l, files) && TargetsDistinct(Steps(FullPlan(l)))
    requires i < |l.canonical| && LeftStaged(l, files, i) && Lists(again, Outcome(l, files).0)
    ensures forall n: nat :: n in again.canonical <==>
      n in l.canonical[..i] || Start(l) + i < n < Start(l) + |l.canonical|
    ensures l.canonical[i] !in again.canonical
    ensures forall n: nat :: n in again.flat <==> n in l.flat
  {
    BlockedMigration(l, files, i);
    var result := Outcome(l, files).0;
    forall n: nat
      ensures n in again.canonical <==> n in l.canonical[..i] || Start(l) + i < n < Start(l) + |l.canonical|
    {
      PageAfterStop(l, files, i, result, n);
    }
    NotRenumberedTo(l, files, i);
    forall n: nat ensures n in again.flat <==> n in l.flat { RootAfterStop(l, files, i, result, Page(n)); }
  }

  lemma RootAfterStop(l: Listing, files: Files, i: nat, result: Files, n: Name)
    requires i < |l.canonical| && StagedResult(l, files, i, result)
    ensures Root(n) in result <==> Root(n) in files
  {
    var top, stage := FromTop(l, i + 1), Move(Renumber(l, i).source, Staged(Page(l.canonical[i])));
    FromTopIsCanonical(l, i + 1, Root(n));
    Snoc(top, stage, Root(n));
  }

  lemma AboveGoElsewhere(l: Listing, files: Files, i: nat, k: nat)
    requires i < k < |l.canonical| && NoneStops(l, files, i + 1)
    ensures Renumber(l, k).target != Renumber(l, i).source
  {
    assert !Stops(l, files, k);
  }

  /** No page above i is renumbered to the number of page i, nor is page i among those before it. */
  lemma NotRenumberedTo(l: Listing, files: Files, i: nat)
    requires Ascending(l.canonical) && i < |l.canonical| && LeftStaged(l, files, i)
    ensures l.canonical[i] !in l.canonical[..i]
    ensures !(Start(l) + i < l.canonical[i] < Start(l) + |l.canonical|)
  {
    if Start(l) + i < l.canonical[i] < Start(l) + |l.canonical| {
      AboveGoElsewhere(l, files, i, l.canonical[i] - Start(l));
    }
  }

  lemma PageAfterStop(l: Listing, files: Files, i: nat, result: Files, n: nat)
    requires Lists(l, files) && i < |l.canonical| && StagedResult(l, files, i, result)
    ensures Canonical(Page(n)) in result <==>
      n in l.canonical[..i] || Start(l) + i < n < Start(l) + |l.canonical|
  {
    var top, p := FromTop(l, i + 1), Canonical(Page(n));
    var stage := Move(Renumber(l, i).source, Staged(Page(l.canonical[i])));
    InResultIff(files, top + [stage], result, p);
    Snoc(top, stage, p);
    TopTargets(l, i + 1, n);
    TopSources(l, i + 1, n);
    PageBefore(l, i, n);
  }

  /** The pages before i are those that neither is page i nor comes after it. */
  lemma PageBefore(l: Listing, i: nat, n: nat)
    requires Ascending(l.canonical) && i < |l.canonical|
    ensures n in l.canonical[..i] <==> n in l.canonical && n !in l.canonical[i+1..] && n != l.canonical[i]
  {
    if k :| 0 <= k < |l.canonical| && l.canonical[k] == n {
      if k < i { assert l.canonical[..i][k] == n; }
      if k > i { assert l.canonical[i+1..][k-i-1] == n; }
    }
  }

  lemma TopTargets(l: Listing, lo: nat, n: nat)
    requires lo <= |l.canonical|
    ensures IsTarget(FromTop(l, lo), Canonical(Page(n))) <==> Start(l) + lo <= n < Start(l) + |l.canonical|
  {
    var top := FromTop(l, lo);
    DescendingAt(l, |l.canonical|);
    if Start(l) + lo <= n < Start(l) + |l.canonical| {
      assert top[|l.canonical| - 1 - (n - Start(l))].target == Canonical(Page(n));
    }
  }

  lemma TopSources(l: Listing, lo: nat, n: nat)
    requires lo <= |l.canonical|
    ensures IsSource(FromTop(l, lo), Canonical(Page(n))) <==> n in l.canonical[lo..]
  {
    var top := FromTop(l, lo);
    DescendingAt(l, |l.canonical|);
    if k :| 0 <= k < |l.canonical[lo..]| && l.canonical[lo..][k] == n {
      assert top[|l.canonical| - 1 - (lo + k)].source == Canonical(Page(n));
    }
    if k :| 0 <= k < |top| && top[k].source == Canonical(Page(n)) {
      assert l.canonical[lo..][|l.canonical| - 1 - k - lo] == n;
    }
  }

  /** One migration after the other, with any writes in between that leave staging names alone. */
  ghost predicate Migrations(fs: seq<Files>, ls: seq<Listing>) {
    && |fs| == |ls| + 1
    && forall k :: 0 <= k < |ls| ==> Lists(ls[k], fs[k]) && KeepsStaged(Outcome(ls[k], fs[k]).0, fs[k+1])
  }

  ghost predicate KeepsStaged(before: Files, after: Files) {
    forall n :: Staged(n) in before ==> Staged(n) in after && after[Staged(n)] == before[Staged(n)]
  }

  /** A page left at a staging name is never planned, moved or overwritten again, however often the layout
      is migrated: its lines stay out of what readers see. */
  lemma {:induction false} OutOfViewForever(fs: seq<Files>, ls: seq<Listing>, k: nat)
    requires Migrations(fs, ls) && k <= |ls|
    ensures KeepsStaged(fs[0], fs[k])
  {
    if k > 0 {
      OutOfViewForever(fs, ls, k - 1);
      var l, files := ls[k-1], fs[k-1];
      RenumbersAre(l, |l.canonical|);
      MovesAreUnstaged(l, files);
      forall n | Staged(n) in files ensures Staged(n) in Outcome(l, files).0 && Outcome(l, files).0[Staged(n)] == files[Staged(n)] {
        StagedStays(files, FullPlan(l), n);
      }
    }
  }

  const DOWN := Listing([1], [3, 5], [], [], [], false, [])
  const DOWN_FILES: Files := map[Root(Page(1)) := "a", Canonical(Page(3)) := "b", Canonical(Page(5)) := "c"]
  const DOWN_STOPPED: Files := map[Root(Page(1)) := "a", Canonical(Page(3)) := "b", Staged(Page(5)) := "c"]
  const DOWN_AGAIN := Listing([1], [3], [], [], [], false, [])
  const DOWN_DONE: Files := map[Canonical(Page(1)) := "a", Canonical(Page(2)) := "b", Staged(Page(5)) := "c"]

  /** One flat page before pages 3 and 5: page 5 is to become page 3 while that is still in place.  The
      migration stops with page 5 at its staging name; migrating again goes through without it, and a
      page is missing from the log. */
  lemma MovingDownBlocks()
    ensures Lists(DOWN, DOWN_FILES) && !NoShiftDown(DOWN)
    ensures Outcome(DOWN, DOWN_FILES) == (DOWN_STOPPED, false)
    ensures Lists(DOWN_AGAIN, DOWN_STOPPED) && Outcome(DOWN_AGAIN, DOWN_STOPPED) == (DOWN_DONE, true)
  {
    DownStops();
    DownAgain();
  }

  lemma DownIsListed()
    ensures Lists(DOWN, DOWN_FILES) && TargetsDistinct(Steps(FullPlan(DOWN)))
  {
    assert Lists(DOWN, DOWN_FILES) && PlainSteps(DOWN) == [];
    TargetsDistinctIff(DOWN, DOWN_FILES);
  }

  lemma DownIsBlocked()
    ensures LeftStaged(DOWN, DOWN_FILES, 1) && !NoShiftDown(DOWN)
  {
    assert Renumber(DOWN, 1).target == Renumber(DOWN, 0).source;
  }

  lemma DownStops()
    ensures Lists(DOWN, DOWN_FILES) && !NoShiftDown(DOWN)
    ensures Outcome(DOWN, DOWN_FILES) == (DOWN_STOPPED, false)
  {
    DownIsListed();
    DownIsBlocked();
    var f := StopsHere(DOWN, DOWN_FILES, 1);
    NothingMoved(DOWN_FILES, f);
    DownPair();
  }

  lemma NothingMoved(files: Files, f: Files)
    requires AllMoved(files, [], f)
    ensures f == files
  {
    forall p ensures p in f <==> p in files { InResultIff(files, [], f, p); }
  }

  lemma DownPair()
    ensures Pair(DOWN_FILES, Renumber(DOWN, 1)) == (DOWN_STOPPED, false) && FromTop(DOWN, 2) == []
  {
    var m := Renumber(DOWN, 1);
    assert m == Move(Canonical(Page(5)), Canonical(Page(3)));
    assert (DOWN_FILES - {m.source})[Staged(Page(5)) := "c"] == DOWN_STOPPED;
  }

  const THREE_TO_TWO := Move(Canonical(Page(3)), Canonical(Page(2)))
  const ROOT_TO_ONE := Move(Root(Page(1)), Canonical(Page(1)))

  lemma DownAgainPlan()
    ensures Lists(DOWN_AGAIN, DOWN_STOPPED) && TargetsDistinct(Steps(FullPlan(DOWN_AGAIN)))
    ensures Executed(FullPlan(DOWN_AGAIN)) == ThroughStaging([] + [THREE_TO_TWO]) + [ROOT_TO_ONE]
  {
    assert Lists(DOWN_AGAIN, DOWN_STOPPED) && PlainSteps(DOWN_AGAIN) == [];
    TargetsDistinctIff(DOWN_AGAIN, DOWN_STOPPED);
    assert Renumbers(DOWN_AGAIN, 1) == Renumbers(DOWN_AGAIN, 0) + [THREE_TO_TWO];
    assert Backwards(Renumbers(DOWN_AGAIN, 1)) == [] + [THREE_TO_TWO];
    assert Moves(DOWN_AGAIN) == [ROOT_TO_ONE];
  }

  lemma DownAgain()
    ensures Lists(DOWN_AGAIN, DOWN_STOPPED) && Outcome(DOWN_AGAIN, DOWN_STOPPED) == (DOWN_DONE, true)
  {
    DownAgainPlan();
    DownAgainRuns();
  }

  const DOWN_RENUMBERED: Files := map[Root(Page(1)) := "a", Canonical(Page(2)) := "b", Staged(Page(5)) := "c"]

  lemma DownRenumbered()
    ensures RunMoves(DOWN_STOPPED, ThroughStaging([] + [THREE_TO_TWO])) == (DOWN_RENUMBERED, true)
  {
    assert ThroughStaging([]) == [] && RunMoves(DOWN_STOPPED, []) == (DOWN_STOPPED, true);
    OnePairMore(DOWN_STOPPED, [], THREE_TO_TWO, DOWN_STOPPED);
    assert (DOWN_STOPPED - {Canonical(Page(3))})[Canonical(Page(2)) := "b"] == DOWN_RENUMBERED;
  }

  lemma DownAgainRuns()
    ensures RunMoves(DOWN_STOPPED, ThroughStaging([] + [THREE_TO_TWO]) + [ROOT_TO_ONE]) == (DOWN_DONE, true)
  {
    DownRenumbered();
    RunConcat(DOWN_STOPPED, ThroughStaging([] + [THREE_TO_TWO]), [ROOT_TO_ONE]);
    RunFirst(DOWN_RENUMBERED, ROOT_TO_ONE, []);
    assert [ROOT_TO_ONE] + [] == [ROOT_TO_ONE];
    assert (DOWN_RENUMBERED - {Root(Page(1))})[Canonical(Page(1)) := "a"] == DOWN_DONE;
  }
}
