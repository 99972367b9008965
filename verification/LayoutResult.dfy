/**
 What a layout migration achieves, for every branch: it goes through exactly when no page would have
 to move down onto one that is still in place and no plain name is taken; then every file keeps its
 content, pages read in the intended order, and planning again finds nothing to do exactly when the
 flat pages were numbered from one without a gap.
 */
module LayoutResult {
  import opened Wrappers
  import opened Layout

  // ----- all renames of a migration, the idle ones included -----

  function Descending(l: Listing, n: nat): seq<Move>
    requires n <= |l.canonical|
  {
    if n == 0 then [] else [Renumber(l, n - 1)] + Descending(l, n - 1)
  }

  lemma {:induction false} DescendingAt(l: Listing, n: nat)
    requires n <= |l.canonical|
    ensures |Descending(l, n)| == n
    ensures forall k :: 0 <= k < n ==> Descending(l, n)[k] == Renumber(l, n - 1 - k)
  {
    if n > 0 { DescendingAt(l, n - 1); }
  }

  lemma BackwardsSnoc(ms: seq<Move>, m: Move)
    ensures Backwards(ms + [m]) == [m] + Backwards(ms)
  {
  }

  /** The renumberings of pages i to n - 1 that change a number. */
  function RenumbersFrom(l: Listing, i: nat, n: nat): seq<Move>
    requires i <= n <= |l.canonical|
    decreases n
  {
    if n == i then []
    else
      var m := Renumber(l, n - 1);
      RenumbersFrom(l, i, n - 1) + if m.source == m.target then [] else [m]
  }

  lemma {:induction false} RenumbersSplit(l: Listing, i: nat, n: nat)
    requires i <= n <= |l.canonical|
    ensures Renumbers(l, n) == Renumbers(l, i) + RenumbersFrom(l, i, n)
    decreases n
  {
    if i < n { RenumbersSplit(l, i, n - 1); }
  }

  lemma BackwardsConcat(xs: seq<Move>, ys: seq<Move>)
    ensures Backwards(xs + ys) == Backwards(ys) + Backwards(xs)
  {
  }

  /** Renaming a page to the name it has changes nothing, so the plan may as well list it. */
  lemma IdleStep(files: Files, m: Move, rest: seq<Move>, later: seq<Move>)
    requires var next := Renamed(files, m);
      next.Some? ==> RunMoves(next.value, Backwards(rest)) == RunMoves(next.value, later)
    ensures RunMoves(files, Backwards(rest + if m.source == m.target then [] else [m])) == RunMoves(files, [m] + later)
  {
    RunFirst(files, m, later);
    if m.source == m.target {
      assert rest + [] == rest;
    } else {
      BackwardsSnoc(rest, m);
      RunFirst(files, m, Backwards(rest));
    }
  }

  lemma {:induction false} IdleRenumbers(l: Listing, i: nat, n: nat, files: Files)
    requires i <= n <= |l.canonical|
    ensures |Descending(l, n)| == n
    ensures RunMoves(files, Backwards(RenumbersFrom(l, i, n))) == RunMoves(files, Descending(l, n)[..n-i])
    decreases n
  {
    DescendingAt(l, n);
    if n > i {
      var m, rest := Renumber(l, n - 1), RenumbersFrom(l, i, n - 1);
      DescendingAt(l, n - 1);
      var later := Descending(l, n - 1)[..n-1-i];
      assert Descending(l, n)[..n-i] == [m] + later;
      var next := Renamed(files, m);
      if next.Some? { IdleRenumbers(l, i, n - 1, next.value); }
      IdleStep(files, m, rest, later);
    }
  }

  lemma RunFirst(files: Files, m: Move, ms: seq<Move>)
    ensures RunMoves(files, [m] + ms) ==
      var next := Renamed(files, m); if next.Some? then RunMoves(next.value, ms) else (files, false)
  {
    RunConcat(files, [m], ms);
    assert [m][..0] == [] && RunMoves(files, []) == (files, true);
  }

  lemma AllRenumbers(l: Listing, n: nat, files: Files)
    requires n <= |l.canonical|
    ensures RunMoves(files, Backwards(Renumbers(l, n))) == RunMoves(files, Descending(l, n))
  {
    RenumbersSplit(l, 0, n);
    assert Renumbers(l, 0) + RenumbersFrom(l, 0, n) == RenumbersFrom(l, 0, n);
    IdleRenumbers(l, 0, n, files);
    assert Descending(l, n)[..n] == Descending(l, n);
  }

  /** What is planned, even when that is nothing. */
  function FullPlan(l: Listing): Plan {
    Plan(Renumbers(l, |l.canonical|), Moves(l))
  }

  function AllSteps(l: Listing): seq<Move> {
    Descending(l, |l.canonical|) + Moves(l)
  }

  lemma StepsAmountTo(l: Listing, files: Files)
    ensures RunMoves(files, Steps(FullPlan(l))) == RunMoves(files, AllSteps(l))
  {
    RunConcat(files, Backwards(Renumbers(l, |l.canonical|)), Moves(l));
    RunConcat(files, Descending(l, |l.canonical|), Moves(l));
    AllRenumbers(l, |l.canonical|, files);
  }

  // ----- distinct sources and targets -----

  ghost predicate SourcesDistinct(ms: seq<Move>) {
    forall j, k :: 0 <= j < k < |ms| ==> ms[j].source != ms[k].source
  }

  lemma TargetsConcat(xs: seq<Move>, ys: seq<Move>)
    ensures TargetsDistinct(xs + ys) <==>
      && TargetsDistinct(xs) && TargetsDistinct(ys)
      && forall m, m' :: m in xs && m' in ys ==> m.target != m'.target
  {
    var zs := xs + ys;
    assert forall k :: 0 <= k < |xs| ==> zs[k] == xs[k];
    assert forall k :: 0 <= k < |ys| ==> zs[|xs|+k] == ys[k];
    if TargetsDistinct(zs) {
      forall m, m' | m in xs && m' in ys ensures m.target != m'.target {
        var j :| 0 <= j < |xs| && xs[j] == m;
        var k :| 0 <= k < |ys| && ys[k] == m';
        assert zs[j].target != zs[|xs|+k].target;
      }
      forall j, k | 0 <= j < k < |ys| ensures ys[j].target != ys[k].target {
        assert zs[|xs|+j].target != zs[|xs|+k].target;
      }
    }
  }

  lemma SourcesConcat(xs: seq<Move>, ys: seq<Move>)
    requires SourcesDistinct(xs) && SourcesDistinct(ys)
    requires forall m, m' :: m in xs && m' in ys ==> m.source != m'.source
    ensures SourcesDistinct(xs + ys)
  {
  }

  /** The moves of files without a number. */
  function PlainSteps(l: Listing): seq<Move> {
    OffOthers(l) + (PlainMoves(l.longTerm) + PlainMoves(l.retros))
  }

  /** No two plain files get the same name, and none of the names is taken in the directory. */
  ghost predicate PlainNamesFree(l: Listing, files: Files) {
    TargetsDistinct(PlainSteps(l)) && forall m :: m in PlainSteps(l) ==> m.target !in files
  }

  /** No page has to move onto a page that precedes it. */
  predicate NoShiftDown(l: Listing) {
    forall i, j :: 0 <= j < i < |l.canonical| ==> Renumber(l, i).target != Renumber(l, j).source
  }

  /** Page i has to move onto a page that precedes it. */
  predicate Blocked(l: Listing, i: nat)
    requires i < |l.canonical|
  {
    exists j :: 0 <= j < i && Renumber(l, i).target == Renumber(l, j).source
  }

  /** The kinds of moves, by their source and target. */
  predicate OffPageMove(l: Listing, m: Move) {
    && m.source.Elsewhere? && m.source.name.Page? && m.target.Canonical? && m.target.name.Page?
    && Start(l) + |l.canonical| <= m.target.name.num < Start(l) + |l.canonical| + |l.off|
  }

  predicate OffOtherMove(m: Move) {
    m.source.Elsewhere? && m.source.name.Plain? && m.target == Canonical(m.source.name)
  }

  predicate FlatMove(l: Listing, m: Move) {
    && m.source.Root? && m.source.name.Page? && m.target == Canonical(m.source.name)
    && m.source.name.num < Start(l)
  }

  predicate PlainMove(m: Move) {
    m.source.Root? && m.source.name.Plain? && Movable(m.source.name.base) && m.target == Canonical(m.source.name)
  }

  predicate MemoriesStep(l: Listing, m: Move) {
    && m.source == Root(Plain(MEMORIES))
    && m.target == Canonical(Page(Start(l) + |l.canonical| + |l.off|))
  }

  predicate RenumberStep(l: Listing, m: Move) {
    && m.source.Canonical? && m.source.name.Page? && m.target.Canonical? && m.target.name.Page?
    && Start(l) <= m.target.name.num < Start(l) + |l.canonical|
  }

  lemma Kinds(l: Listing, files: Files)
    requires Lists(l, files)
    ensures forall m :: m in OffPages(l) ==> OffPageMove(l, m)
    ensures forall m :: m in OffOthers(l) ==> OffOtherMove(m)
    ensures forall m :: m in FlatPages(l) ==> FlatMove(l, m)
    ensures forall m :: m in PlainMoves(l.longTerm) + PlainMoves(l.retros) ==> PlainMove(m)
    ensures forall m :: m in MemoriesMove(l) ==> MemoriesStep(l, m)
    ensures forall m :: m in Descending(l, |l.canonical|) ==> RenumberStep(l, m)
  {
    DescendingAt(l, |l.canonical|);
    forall m | m in PlainMoves(l.longTerm) + PlainMoves(l.retros) ensures PlainMove(m) {
      assert m.source.name.base in l.longTerm + l.retros;
    }
  }

  lemma DescendingDistinct(l: Listing)
    requires Ascending(l.canonical)
    ensures SourcesDistinct(Descending(l, |l.canonical|)) && TargetsDistinct(Descending(l, |l.canonical|))
  {
    DescendingAt(l, |l.canonical|);
  }

  /** Moves in the order planned, grouped as the steps are. */
  lemma MovesGrouped(l: Listing)
    ensures Moves(l) == OffPages(l) + (OffOthers(l) + (FlatPages(l) + (PlainMoves(l.longTerm) +
                          (MemoriesMove(l) + PlainMoves(l.retros)))))
  {
  }

  lemma SourcesAreDistinct(l: Listing, files: Files)
    requires Lists(l, files)
    ensures SourcesDistinct(AllSteps(l))
  {
    Kinds(l, files);
    DescendingDistinct(l);
    assert SourcesDistinct(OffPages(l)) && SourcesDistinct(OffOthers(l)) && SourcesDistinct(FlatPages(l));
    PlainSourcesDistinct(l);
    var lt, mem, re := PlainMoves(l.longTerm), MemoriesMove(l), PlainMoves(l.retros);
    SourcesConcat(mem, re);
    SourcesConcat(lt, mem + re);
    SourcesConcat(FlatPages(l), lt + (mem + re));
    SourcesConcat(OffOthers(l), FlatPages(l) + (lt + (mem + re)));
    SourcesConcat(OffPages(l), OffOthers(l) + (FlatPages(l) + (lt + (mem + re))));
    MovesGrouped(l);
    SourcesConcat(Descending(l, |l.canonical|), Moves(l));
  }

  lemma NamesApart(bs: seq<string>, cs: seq<string>)
    requires NoRepeats(bs + cs)
    ensures NoRepeats(bs) && NoRepeats(cs) && forall b :: b in bs ==> b !in cs
  {
    var all := bs + cs;
    assert forall k :: 0 <= k < |bs| ==> all[k] == bs[k];
    assert forall k :: 0 <= k < |cs| ==> all[|bs|+k] == cs[k];
    forall j, k | 0 <= j < |bs| && 0 <= k < |cs| ensures bs[j] != cs[k] {
      assert all[j] != all[|bs|+k];
    }
  }

  lemma PlainSourcesDistinct(l: Listing)
    requires NoRepeats(l.longTerm + l.retros)
    ensures SourcesDistinct(PlainMoves(l.longTerm)) && SourcesDistinct(PlainMoves(l.retros))
    ensures forall m, m' :: m in PlainMoves(l.longTerm) && m' in PlainMoves(l.retros) ==> m.source != m'.source
  {
    NamesApart(l.longTerm, l.retros);
    forall m | m in PlainMoves(l.longTerm)
      ensures m.source.Root? && m.source.name.Plain? && m.source.name.base in l.longTerm {}
    forall m | m in PlainMoves(l.retros)
      ensures m.source.Root? && m.source.name.Plain? && m.source.name.base in l.retros {}
  }

  function RootMoves(l: Listing): seq<Move> {
    FlatPages(l) + (PlainMoves(l.longTerm) + (MemoriesMove(l) + PlainMoves(l.retros)))
  }

  lemma RootTargets(l: Listing, files: Files)
    requires Lists(l, files)
    ensures TargetsDistinct(RootMoves(l)) <==> TargetsDistinct(PlainMoves(l.longTerm) + PlainMoves(l.retros))
  {
    Kinds(l, files);
    var flat, lt, mem, re := FlatPages(l), PlainMoves(l.longTerm), MemoriesMove(l), PlainMoves(l.retros);
    assert TargetsDistinct(flat) && TargetsDistinct(mem);
    TargetsConcat(mem, re);
    TargetsConcat(lt, mem + re);
    TargetsConcat(lt, re);
    TargetsConcat(flat, lt + (mem + re));
  }

  lemma OffTargetsApart(l: Listing, files: Files)
    requires Lists(l, files)
    ensures TargetsDistinct(OffPages(l))
    ensures forall m, m' :: m in OffPages(l) && m' in OffOthers(l) + RootMoves(l) ==> m.target != m'.target
  {
    Kinds(l, files);
  }

  lemma MovesTargets(l: Listing, files: Files)
    requires Lists(l, files)
    ensures TargetsDistinct(Moves(l)) <==> TargetsDistinct(PlainSteps(l))
  {
    OffTargetsApart(l, files);
    MovesGrouped(l);
    var off, others, root := OffPages(l), OffOthers(l), RootMoves(l);
    TargetsConcat(off, others + root);
    OtherTargets(l, files);
  }

  lemma OtherTargets(l: Listing, files: Files)
    requires Lists(l, files)
    ensures TargetsDistinct(OffOthers(l) + RootMoves(l)) <==> TargetsDistinct(PlainSteps(l))
  {
    Kinds(l, files);
    RootTargets(l, files);
    TargetsConcat(OffOthers(l), RootMoves(l));
    TargetsConcat(OffOthers(l), PlainMoves(l.longTerm) + PlainMoves(l.retros));
  }

  lemma RenumbersApart(l: Listing, files: Files)
    requires Lists(l, files)
    ensures forall m, m' :: m in Descending(l, |l.canonical|) && m' in Moves(l) ==> m.target != m'.target
  {
    Kinds(l, files);
  }

  /** Numbers never clash, so the targets are distinct exactly when the plain names are. */
  lemma TargetsDistinctIff(l: Listing, files: Files)
    requires Lists(l, files)
    ensures TargetsDistinct(AllSteps(l)) <==> TargetsDistinct(PlainSteps(l))
    ensures TargetsDistinct(Steps(FullPlan(l))) <==> TargetsDistinct(PlainSteps(l))
  {
    RenumbersApart(l, files);
    MovesTargets(l, files);
    DescendingDistinct(l);
    TargetsConcat(Descending(l, |l.canonical|), Moves(l));
    BackwardsRenumbers(l, |l.canonical|);
    TargetsConcat(Backwards(Renumbers(l, |l.canonical|)), Moves(l));
  }

  /** The renumberings that are carried out are among all of them, with distinct targets. */
  lemma {:induction false} BackwardsRenumbers(l: Listing, n: nat)
    requires n <= |l.canonical|
    ensures forall m :: m in Backwards(Renumbers(l, n)) ==>
      m in Descending(l, n) && m.source != m.target && m.source.Canonical? && m.target.Canonical?
    ensures TargetsDistinct(Backwards(Renumbers(l, n)))
  {
    if n > 0 {
      var m, rest := Renumber(l, n - 1), Renumbers(l, n - 1);
      BackwardsRenumbers(l, n - 1);
      if m.source != m.target {
        BackwardsSnoc(rest, m);
        FirstTargetApart(l, n, m, Backwards(rest));
      } else {
        assert Renumbers(l, n) == rest;
      }
    }
  }

  lemma FirstTargetApart(l: Listing, n: nat, m: Move, rest: seq<Move>)
    requires 0 < n <= |l.canonical| && m == Renumber(l, n - 1)
    requires TargetsDistinct(rest) && forall x :: x in rest ==> x in Descending(l, n - 1)
    ensures TargetsDistinct([m] + rest)
  {
    DescendingAt(l, n - 1);
    TargetsConcat([m], rest);
  }

  // ----- targets free in their turn -----

  lemma FreePrefix(files: Files, xs: seq<Move>, ys: seq<Move>)
    requires FreeInTurn(files, xs + ys)
    ensures FreeInTurn(files, xs)
  {
    forall k | 0 <= k < |xs| && xs[k].target in files ensures IsSource(xs[..k+1], xs[k].target) {
      assert (xs + ys)[k] == xs[k] && (xs + ys)[..k+1] == xs[..k+1];
    }
  }

  lemma MoreSources(xs: seq<Move>, ys: seq<Move>, p: Path)
    requires IsSource(xs, p) && xs <= ys
    ensures IsSource(ys, p)
  {
    var k :| 0 <= k < |xs| && xs[k].source == p;
    assert ys[k].source == p;
  }

  lemma FreeExtended(files: Files, xs: seq<Move>, ys: seq<Move>)
    requires FreeInTurn(files, xs)
    requires forall m :: m in ys && m.target in files ==> IsSource(xs, m.target)
    ensures FreeInTurn(files, xs + ys)
  {
    var zs := xs + ys;
    forall k | 0 <= k < |zs| && zs[k].target in files ensures IsSource(zs[..k+1], zs[k].target) {
      if k < |xs| {
        assert zs[..k+1] == xs[..k+1] && zs[k] == xs[k];
      } else {
        assert zs[k] == ys[k-|xs|] && zs[k] in ys;
        MoreSources(xs, zs[..k+1], zs[k].target);
      }
    }
  }

  /** When page i has its turn, the pages from i on have been seen to. */
  lemma SeenTo(l: Listing, i: nat, p: Path)
    requires i < |l.canonical|
    ensures |Descending(l, |l.canonical|)| == |l.canonical|
    ensures IsSource(Descending(l, |l.canonical|)[..|l.canonical|-i], p) <==>
      exists j :: i <= j < |l.canonical| && Renumber(l, j).source == p
  {
    var n, ms := |l.canonical|, Descending(l, |l.canonical|);
    DescendingAt(l, n);
    if IsSource(ms[..n-i], p) {
      var k :| 0 <= k < n - i && ms[..n-i][k].source == p;
      assert Renumber(l, n - 1 - k).source == p;
    }
    if j :| i <= j < n && Renumber(l, j).source == p {
      assert ms[..n-i][n-1-j].source == p;
    }
  }

  /** Renumbering from the highest page down works exactly when no page moves onto a preceding one. */
  lemma DescendingFreeIff(l: Listing, files: Files)
    requires Lists(l, files)
    ensures FreeInTurn(files, Descending(l, |l.canonical|)) <==> NoShiftDown(l)
  {
    if NoShiftDown(l) { NoShiftIsFree(l, files); }
    if FreeInTurn(files, Descending(l, |l.canonical|)) { FreeNeedsNoShift(l, files); }
  }

  /** A page that stands on the target of page i comes at or after it, so it has been seen to. */
  lemma TargetSeenTo(l: Listing, files: Files, i: nat)
    requires Lists(l, files) && i < |l.canonical| && !Blocked(l, i) && Renumber(l, i).target in files
    ensures exists j :: i <= j < |l.canonical| && Renumber(l, j).source == Renumber(l, i).target
  {
    var n := |l.canonical|;
    assert Start(l) + i in l.canonical;
    var j :| 0 <= j < n && l.canonical[j] == Start(l) + i;
    assert Renumber(l, i).target == Renumber(l, j).source;
  }

  lemma NoShiftIsFree(l: Listing, files: Files)
    requires Lists(l, files) && NoShiftDown(l)
    ensures FreeInTurn(files, Descending(l, |l.canonical|))
  {
    var n, ms := |l.canonical|, Descending(l, |l.canonical|);
    DescendingAt(l, n);
    forall k | 0 <= k < n && ms[k].target in files ensures IsSource(ms[..k+1], ms[k].target) {
      assert !Blocked(l, n - 1 - k);
      TargetSeenTo(l, files, n - 1 - k);
      SeenTo(l, n - 1 - k, ms[k].target);
    }
  }

  lemma FreeNeedsNoShift(l: Listing, files: Files)
    requires Lists(l, files) && FreeInTurn(files, Descending(l, |l.canonical|))
    ensures NoShiftDown(l)
  {
    var n, ms := |l.canonical|, Descending(l, |l.canonical|);
    DescendingAt(l, n);
    forall i, j | 0 <= j < i < n ensures Renumber(l, i).target != Renumber(l, j).source {
      var k := n - 1 - i;
      SeenTo(l, i, ms[k].target);
      assert l.canonical[j] in l.canonical;
      assert forall j' :: i <= j' < n ==> l.canonical[j'] != l.canonical[j];
    }
  }

  lemma SourcesExist(l: Listing, files: Files)
    requires Lists(l, files)
    ensures forall m :: m in AllSteps(l) ==> m.source in files
  {
    DescendingAt(l, |l.canonical|);
    MovesGrouped(l);
    forall m | m in PlainMoves(l.longTerm) + PlainMoves(l.retros) ensures m.source in files {
      assert m.source.name.base in l.longTerm + l.retros;
    }
    forall m | m in Descending(l, |l.canonical|) ensures m.source in files {
      assert m.source.name.num in l.canonical;
    }
  }

  /** A page that stands in a move's way has been renumbered before. */
  lemma PagesStepAside(l: Listing, files: Files)
    requires Lists(l, files) && forall m :: m in PlainSteps(l) ==> m.target !in files
    ensures forall m :: m in Moves(l) && m.target in files ==> IsSource(Descending(l, |l.canonical|), m.target)
  {
    var n := |l.canonical|;
    Kinds(l, files);
    MovesGrouped(l);
    DescendingAt(l, n);
    forall m | m in Moves(l) && m.target in files ensures IsSource(Descending(l, n), m.target) {
      assert m !in PlainSteps(l);
      assert m.target.Canonical? && m.target.name.Page?;
      assert m.target.name.num in l.canonical;
      var j :| 0 <= j < n && l.canonical[j] == m.target.name.num;
      assert Descending(l, n)[n-1-j].source == m.target;
    }
  }

  lemma TakenNameBlocks(l: Listing, files: Files, m: Move)
    requires Lists(l, files) && m in PlainSteps(l) && m.target in files
    ensures !FreeInTurn(files, AllSteps(l))
  {
    var all := AllSteps(l);
    PlainStepsAreSteps(l, files, m);
    var k :| 0 <= k < |all| && all[k] == m;
    assert !IsSource(all[..k+1], all[k].target);
  }

  /** The moves of plain files are among the steps, and no step starts from the name of one. */
  lemma PlainStepsAreSteps(l: Listing, files: Files, m: Move)
    requires Lists(l, files) && m in PlainSteps(l)
    ensures m in AllSteps(l) && forall x :: x in AllSteps(l) ==> x.source != m.target
  {
    Kinds(l, files);
    MovesGrouped(l);
  }

  // ----- the result -----

  /** A canonical page changes its number while its staging name is taken. */
  predicate StageTaken(l: Listing, files: Files, i: nat)
    requires i < |l.canonical|
  {
    Renumber(l, i).source != Renumber(l, i).target && Staged(Page(l.canonical[i])) in files
  }

  predicate StagingFree(l: Listing, files: Files) {
    forall i :: 0 <= i < |l.canonical| ==> !StageTaken(l, files, i)
  }

  lemma {:induction false} RenumbersAre(l: Listing, n: nat)
    requires n <= |l.canonical|
    ensures Stageable(Renumbers(l, n))
    ensures forall i :: 0 <= i < n && Renumber(l, i).source != Renumber(l, i).target ==> Renumber(l, i) in Renumbers(l, n)
    ensures forall m :: m in Renumbers(l, n) ==>
      exists i :: 0 <= i < n && m == Renumber(l, i) && m.source != m.target
  {
    if n > 0 {
      RenumbersAre(l, n - 1);
      forall m | m in Renumbers(l, n) ensures exists i :: 0 <= i < n && m == Renumber(l, i) && m.source != m.target {
        if m in Renumbers(l, n - 1) {
          var i :| 0 <= i < n - 1 && m == Renumber(l, i) && m.source != m.target;
        } else {
          assert m == Renumber(l, n - 1);
        }
      }
    }
  }

  lemma StagesFreeIff(l: Listing, files: Files)
    ensures StagesFree(files, Backwards(Renumbers(l, |l.canonical|))) <==> StagingFree(l, files)
  {
    var n := |l.canonical|;
    var ms := Renumbers(l, n);
    RenumbersAre(l, n);
    assert forall m :: m in Backwards(ms) ==> m in ms;
    forall m | m in ms ensures m in Backwards(ms) {
      var k :| 0 <= k < |ms| && ms[k] == m;
      assert Backwards(ms)[|ms|-1-k] == m;
    }
    if StagingFree(l, files) {
      forall m | m in Backwards(ms) ensures Staged(m.source.name) !in files {
        assert m in ms;
        var i :| 0 <= i < n && m == Renumber(l, i) && m.source != m.target;
        assert !StageTaken(l, files, i);
      }
    }
    if StagesFree(files, Backwards(ms)) {
      forall i | 0 <= i < n ensures !StageTaken(l, files, i) {
        if Renumber(l, i).source != Renumber(l, i).target { assert Renumber(l, i) in Backwards(ms); }
      }
    }
  }

  /** The `git mv`s of a plan all go through exactly when the renames would at once and the staging names
      are free. */
  lemma RenamesIff(l: Listing, files: Files)
    ensures RunMoves(files, Renames(FullPlan(l))).1 <==> RunMoves(files, Steps(FullPlan(l))).1 && StagingFree(l, files)
    ensures RunMoves(files, Renames(FullPlan(l))).1 ==>
      RunMoves(files, Renames(FullPlan(l))) == RunMoves(files, Steps(FullPlan(l)))
  {
    var back := Backwards(Renumbers(l, |l.canonical|));
    RenumbersAre(l, |l.canonical|);
    assert Stageable(back);
    ThroughStagingIff(files, back);
    StagesFreeIff(l, files);
    RunConcat(files, ThroughStaging(back), Moves(l));
    RunConcat(files, back, Moves(l));
  }

  /** What carrying out the plan does. */
  function Outcome(l: Listing, files: Files): (Files, bool) {
    var (f, ok) := RunMoves(files, Executed(FullPlan(l)));
    (f, ok && TargetsDistinct(Steps(FullPlan(l))))
  }

  predicate Applies(l: Listing, files: Files) {
    Outcome(l, files).1
  }

  /** The migration goes through exactly when no plain name is taken, no page has to move down onto one
      that precedes it, and no staging name is taken; then every file is at its target with its content,
      nothing is overwritten and nothing else changes. */
  lemma MigrationIff(l: Listing, files: Files)
    requires Lists(l, files)
    ensures Applies(l, files) <==> PlainNamesFree(l, files) && NoShiftDown(l) && StagingFree(l, files)
    ensures Applies(l, files) ==> AllMoved(files, AllSteps(l), Outcome(l, files).0)
  {
    TargetsDistinctIff(l, files);
    StepsAmountTo(l, files);
    RenamesIff(l, files);
    if TargetsDistinct(PlainSteps(l)) {
      SourcesAreDistinct(l, files);
      SourcesExist(l, files);
      RunMovesIff(files, AllSteps(l));
      AllFreeIff(l, files);
    }
  }

  lemma AllFreeIff(l: Listing, files: Files)
    requires Lists(l, files) && TargetsDistinct(PlainSteps(l))
    ensures FreeInTurn(files, AllSteps(l)) <==> PlainNamesFree(l, files) && NoShiftDown(l)
  {
    DescendingFreeIff(l, files);
    if PlainNamesFree(l, files) {
      PagesStepAside(l, files);
      if NoShiftDown(l) { FreeExtended(files, Descending(l, |l.canonical|), Moves(l)); }
      if FreeInTurn(files, AllSteps(l)) { FreePrefix(files, Descending(l, |l.canonical|), Moves(l)); }
    } else {
      var m :| m in PlainSteps(l) && m.target in files;
      TakenNameBlocks(l, files, m);
    }
  }

  // ----- reading order -----

  function Numbers(from: nat, count: nat): seq<nat> {
    seq(count, k requires 0 <= k < count => from + k)
  }

  /** The page numbers after the migration. */
  function NumbersAfter(l: Listing): seq<nat> {
    l.flat + Numbers(Start(l), |l.canonical| + |l.off| + if l.memories then 1 else 0)
  }

  function RootPages(l: Listing): seq<Path> {
    seq(|l.flat|, k requires 0 <= k < |l.flat| => Root(Page(l.flat[k])))
  }

  function CanonicalPages(l: Listing): seq<Path> {
    seq(|l.canonical|, k requires 0 <= k < |l.canonical| => Canonical(Page(l.canonical[k])))
  }

  function OffPagePaths(l: Listing): seq<Path> {
    seq(|l.off|, k requires 0 <= k < |l.off| => Elsewhere(l.off[k].0, Page(l.off[k].1)))
  }

  /** The old pages in the order they are to be read: flat, then the branch's own, then others. */
  function OldOrder(l: Listing): seq<Path> {
    RootPages(l) + CanonicalPages(l) + OffPagePaths(l) + if l.memories then [Root(Plain(MEMORIES))] else []
  }

  lemma StepTo(l: Listing, i: nat)
    requires i < |OldOrder(l)|
    ensures |NumbersAfter(l)| == |OldOrder(l)|
    ensures Move(OldOrder(l)[i], Canonical(Page(NumbersAfter(l)[i]))) in AllSteps(l)
  {
    DescendingAt(l, |l.canonical|);
    MovesGrouped(l);
    var f, c, o := |l.flat|, |l.canonical|, |l.off|;
    var m := Move(OldOrder(l)[i], Canonical(Page(NumbersAfter(l)[i])));
    if i < f {
      assert m == FlatPages(l)[i];
    } else if i < f + c {
      assert m == Renumber(l, i - f) == Descending(l, c)[c-1-(i-f)];
    } else if i < f + c + o {
      assert m == OffPages(l)[i-f-c];
    } else {
      assert m in MemoriesMove(l);
    }
  }

  /** After a migration the directory's pages are numbered in ascending order and hold, in that
      order, the flat pages, then the branch's own pages, then those from elsewhere. */
  lemma PagesKeepOrder(l: Listing, files: Files, result: Files)
    requires Lists(l, files) && AllMoved(files, AllSteps(l), result)
    ensures Ascending(NumbersAfter(l)) && |NumbersAfter(l)| == |OldOrder(l)|
    ensures forall i :: 0 <= i < |OldOrder(l)| ==>
      && OldOrder(l)[i] in files && Canonical(Page(NumbersAfter(l)[i])) in result
      && result[Canonical(Page(NumbersAfter(l)[i]))] == files[OldOrder(l)[i]]
  {
    forall i | 0 <= i < |OldOrder(l)|
      ensures && OldOrder(l)[i] in files && Canonical(Page(NumbersAfter(l)[i])) in result
              && result[Canonical(Page(NumbersAfter(l)[i]))] == files[OldOrder(l)[i]]
    {
      StepTo(l, i);
      var m := Move(OldOrder(l)[i], Canonical(Page(NumbersAfter(l)[i])));
      var k :| 0 <= k < |AllSteps(l)| && AllSteps(l)[k] == m;
    }
  }

  // ----- planning again -----

  /** What the planner finds after a migration. */
  function Relisted(l: Listing): Listing {
    Listing([], NumbersAfter(l), [], [], [], false, [])
  }

  lemma PageTargets(l: Listing, files: Files, n: nat)
    requires Lists(l, files)
    ensures n in NumbersAfter(l) <==> IsTarget(AllSteps(l), Canonical(Page(n)))
  {
    var all := AllSteps(l);
    if n in NumbersAfter(l) {
      var i :| 0 <= i < |NumbersAfter(l)| && NumbersAfter(l)[i] == n;
      StepTo(l, i);
      var k :| 0 <= k < |all| && all[k] == Move(OldOrder(l)[i], Canonical(Page(n)));
    }
    if IsTarget(all, Canonical(Page(n))) {
      var k :| 0 <= k < |all| && all[k].target == Canonical(Page(n));
      assert all[k] in all;
      TargetIsNumbered(l, files, all[k]);
    }
  }

  lemma TargetIsNumbered(l: Listing, files: Files, m: Move)
    requires Lists(l, files) && m in AllSteps(l) && m.target.name.Page?
    ensures m.target.name.num in NumbersAfter(l)
  {
    Kinds(l, files);
    MovesGrouped(l);
    var f, d := |l.flat|, m.target.name.num - Start(l);
    if m in FlatPages(l) {
      var k :| 0 <= k < f && FlatPages(l)[k] == m;
      assert NumbersAfter(l)[k] == m.target.name.num;
    } else {
      assert NumbersAfter(l)[f+d] == m.target.name.num;
    }
  }

  /** No file that the planner lists outside the directory is left behind. */
  lemma AllListedMove(l: Listing, files: Files, p: Path)
    requires Lists(l, files) && p in files
    requires match p
      case Root(Page(_)) => true
      case Root(Plain(b)) => Movable(b) || b == MEMORIES
      case Elsewhere(_, _) => true
      case Canonical(Page(_)) => true
      case _ => false
    ensures IsSource(AllSteps(l), p)
  {
    match p {
      case Root(Page(n)) =>
        var k :| 0 <= k < |l.flat| && l.flat[k] == n;
        StepHasSource(l, FlatPages(l)[k]);
      case Root(Plain(b)) => PlainFileMoves(l, files, b);
      case Elsewhere(d, Page(n)) =>
        var k :| 0 <= k < |l.off| && l.off[k] == (d, n);
        StepHasSource(l, OffPages(l)[k]);
      case Elsewhere(d, Plain(b)) =>
        var k :| 0 <= k < |l.offOther| && l.offOther[k] == (d, b);
        StepHasSource(l, OffOthers(l)[k]);
      case Canonical(Page(n)) =>
        var k :| 0 <= k < |l.canonical| && l.canonical[k] == n;
        DescendingAt(l, |l.canonical|);
        StepHasSource(l, Descending(l, |l.canonical|)[|l.canonical|-1-k]);
    }
  }

  lemma StepHasSource(l: Listing, m: Move)
    requires m in Descending(l, |l.canonical|) || m in OffPages(l) || m in OffOthers(l) || m in FlatPages(l)
      || m in PlainMoves(l.longTerm) || m in MemoriesMove(l) || m in PlainMoves(l.retros)
    ensures IsSource(AllSteps(l), m.source)
  {
    MovesGrouped(l);
    var all := AllSteps(l);
    assert m in all;
    var k :| 0 <= k < |all| && all[k] == m;
  }

  lemma PlainFileMoves(l: Listing, files: Files, b: string)
    requires Lists(l, files) && Root(Plain(b)) in files && (Movable(b) || b == MEMORIES)
    ensures IsSource(AllSteps(l), Root(Plain(b)))
  {
    if Movable(b) {
      assert b in l.longTerm + l.retros;
      if k :| 0 <= k < |l.longTerm| && l.longTerm[k] == b {
        StepHasSource(l, PlainMoves(l.longTerm)[k]);
      } else {
        var k :| 0 <= k < |l.retros| && l.retros[k] == b;
        StepHasSource(l, PlainMoves(l.retros)[k]);
      }
    } else {
      StepHasSource(l, MemoriesMove(l)[0]);
    }
  }

  predicate ListedOutside(p: Path) {
    p.Elsewhere? || (p.Root? && (p.name.Page? || Movable(p.name.base) || p.name.base == MEMORIES))
  }

  lemma NothingLeftOutside(l: Listing, files: Files, result: Files, p: Path)
    requires Lists(l, files) && AllMoved(files, AllSteps(l), result) && !p.Canonical?
    ensures ListedOutside(p) ==> p !in result
    ensures p in result ==> p in files
  {
    AllTargetsCanonical(l, files);
    if ListedOutside(p) && p in files { AllListedMove(l, files, p); }
  }

  lemma AllTargetsCanonical(l: Listing, files: Files)
    requires Lists(l, files)
    ensures forall p :: IsTarget(AllSteps(l), p) ==> p.Canonical?
  {
    Kinds(l, files);
    MovesGrouped(l);
    forall m | m in AllSteps(l) ensures m.target.Canonical? {}
  }

  lemma PagesAfter(l: Listing, files: Files, result: Files, n: nat)
    requires Lists(l, files) && AllMoved(files, AllSteps(l), result)
    ensures n in NumbersAfter(l) <==> Canonical(Page(n)) in result
  {
    var all := AllSteps(l);
    PageTargets(l, files, n);
    if IsTarget(all, Canonical(Page(n))) {
      var k :| 0 <= k < |all| && all[k].target == Canonical(Page(n));
    }
    if Canonical(Page(n)) in files { AllListedMove(l, files, Canonical(Page(n))); }
  }

  /** The directory holds exactly these pages, and nothing the planner lists is outside it. */
  ghost predicate Tidy(ns: seq<nat>, files: Files) {
    && (forall n: nat :: n in ns <==> Canonical(Page(n)) in files)
    && (forall p :: p in files ==> !ListedOutside(p))
    && (forall p :: p in files && p.name.Page? ==> p.name.num <= LAST_PAGE)
  }

  lemma TidyIsListed(ns: seq<nat>, files: Files)
    requires Ascending(ns) && Tidy(ns, files)
    ensures Lists(Listing([], ns, [], [], [], false, []), files)
  {
    assert ListedOutside(Root(Plain(MEMORIES)));
    forall d, n: nat ensures Elsewhere(d, Page(n)) !in files { assert ListedOutside(Elsewhere(d, Page(n))); }
    forall d, b ensures Elsewhere(d, Plain(b)) !in files { assert ListedOutside(Elsewhere(d, Plain(b))); }
    forall n: nat ensures Root(Page(n)) !in files { assert ListedOutside(Root(Page(n))); }
    forall b | Movable(b) ensures Root(Plain(b)) !in files { assert ListedOutside(Root(Plain(b))); }
  }

  /** After a migration the planner finds its result and nothing else, exactly when the page numbers still
      have six digits. */
  lemma RelistedIsListedIff(l: Listing, files: Files, result: Files)
    requires Lists(l, files) && AllMoved(files, AllSteps(l), result)
    ensures Lists(Relisted(l), result) <==> SixDigits(NumbersAfter(l))
  {
    forall n: nat ensures n in NumbersAfter(l) <==> Canonical(Page(n)) in result {
      PagesAfter(l, files, result, n);
    }
    if Lists(Relisted(l), result) {
      forall n | n in NumbersAfter(l) ensures n <= LAST_PAGE { assert Canonical(Page(n)).name == Page(n); }
    }
    if SixDigits(NumbersAfter(l)) {
      ResultIsTidy(l, files, result);
      NumbersAscend(l);
      TidyIsListed(NumbersAfter(l), result);
    }
  }

  predicate SixDigits(ns: seq<nat>) {
    forall n :: n in ns ==> n <= LAST_PAGE
  }

  lemma NumbersAscend(l: Listing)
    requires Ascending(l.flat)
    ensures Ascending(NumbersAfter(l))
  {
  }

  lemma ResultIsTidy(l: Listing, files: Files, result: Files)
    requires Lists(l, files) && AllMoved(files, AllSteps(l), result) && SixDigits(NumbersAfter(l))
    requires forall n: nat :: n in NumbersAfter(l) <==> Canonical(Page(n)) in result
    ensures Tidy(NumbersAfter(l), result)
  {
    forall p | p in result ensures !ListedOutside(p) && (p.name.Page? ==> p.name.num <= LAST_PAGE) {
      ResultInView(l, files, result, p);
    }
  }

  lemma ResultInView(l: Listing, files: Files, result: Files, p: Path)
    requires Lists(l, files) && AllMoved(files, AllSteps(l), result) && SixDigits(NumbersAfter(l))
    requires p in result && forall n: nat :: n in NumbersAfter(l) <==> Canonical(Page(n)) in result
    ensures !ListedOutside(p) && (p.name.Page? ==> p.name.num <= LAST_PAGE)
  {
    if !p.Canonical? {
      NothingLeftOutside(l, files, result, p);
    } else if p.name.Page? {
      assert Canonical(Page(p.name.num)) in result;
    }
  }

  /** Planning again finds nothing to do exactly when the flat pages were numbered 1, 2, 3, ... */
  lemma ReplanIsNullIff(l: Listing)
    requires Ascending(l.flat)
    ensures PlanOf(Relisted(l)).None? <==> forall i :: 0 <= i < |l.flat| ==> l.flat[i] == i + 1
  {
    var again, n := Relisted(l), |NumbersAfter(l)|;
    RenumbersEmptyIff(again, n);
    if forall i :: 0 <= i < |l.flat| ==> l.flat[i] == i + 1 {
      assert Start(l) == |l.flat| + 1;
      forall i | 0 <= i < n ensures again.canonical[i] == Start(again) + i {}
    }
    if PlanOf(again).None? {
      forall i | 0 <= i < |l.flat| ensures l.flat[i] == i + 1 {
        assert again.canonical[i] == l.flat[i];
      }
    }
  }

  lemma {:induction false} RenumbersEmptyIff(l: Listing, n: nat)
    requires n <= |l.canonical|
    ensures Renumbers(l, n) == [] <==> forall i :: 0 <= i < n ==> l.canonical[i] == Start(l) + i
  {
    if n > 0 { RenumbersEmptyIff(l, n - 1); }
  }

  lemma StepFromPlain(l: Listing, files: Files, m: Move)
    requires Lists(l, files) && m in AllSteps(l) && m.source.name.Plain? && m.source != Root(Plain(MEMORIES))
    ensures m.target == Canonical(m.source.name)
  {
    Kinds(l, files);
    MovesGrouped(l);
  }

  /** After a migration every file without a number that the planner lists is in the directory under its own
      name, with its content; and every file it does not list is where it was, as it was. */
  lemma PlainFilesKeepNames(l: Listing, files: Files, result: Files, p: Path)
    requires Lists(l, files) && AllMoved(files, AllSteps(l), result) && p in files
    ensures ListedOutside(p) && p.name.Plain? && p != Root(Plain(MEMORIES)) ==>
      Canonical(p.name) in result && result[Canonical(p.name)] == files[p]
    ensures p.Staged? || (!ListedOutside(p) && p.name.Plain?) ==> p in result && result[p] == files[p]
  {
    if ListedOutside(p) {
      AllListedMove(l, files, p);
      var k :| 0 <= k < |AllSteps(l)| && AllSteps(l)[k].source == p;
      assert AllSteps(l)[k] in AllSteps(l);
      if p.name.Plain? && p != Root(Plain(MEMORIES)) { StepFromPlain(l, files, AllSteps(l)[k]); }
    } else if IsSource(AllSteps(l), p) {
      var k :| 0 <= k < |AllSteps(l)| && AllSteps(l)[k].source == p;
      SourceIsListed(l, files, AllSteps(l)[k]);
    }
  }

  lemma SourceIsListed(l: Listing, files: Files, m: Move)
    requires Lists(l, files) && m in AllSteps(l)
    ensures ListedOutside(m.source) || (m.source.Canonical? && m.source.name.Page?)
  {
    Kinds(l, files);
    MovesGrouped(l);
  }
}
