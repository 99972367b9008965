/**
 Renumbering a cortex branch into one directory: flat pages keep their numbers, pages already in the
 directory follow them, pages from elsewhere come last, and files without a number keep their name.

 The plan is carried out one `git mv` at a time, so a target has to be free at its turn.  The module
 says exactly when that succeeds, what the branch then holds, and when planning again finds nothing.
 */
module Layout {
  import opened Wrappers

  datatype Name = Page(num: nat) | Plain(base: string)

  /** Where a file is: at the root, in the branch's own directory, under its staging name there, or
      in another directory. */
  datatype Path =
    | Root(name: Name)
    | Canonical(name: Name)
    | Staged(name: Name)
    | Elsewhere(dir: string, name: Name)

  type Files = map<Path, string>

  datatype Move = Move(source: Path, target: Path)

  const LAST_PAGE: nat := 999_999

  const MEMORIES := "memories.jsonl"
  const LONG_TERM := "long-term.jsonl"
  const RETROS := "-retros.jsonl"

  /** What the planner reads off the working tree, every list sorted. */
  datatype Listing = Listing(
    flat: seq<nat>,
    canonical: seq<nat>,
    off: seq<(string, nat)>,
    offOther: seq<(string, string)>,
    longTerm: seq<string>,
    memories: bool,
    retros: seq<string>)

  datatype Plan = Plan(renumbers: seq<Move>, moves: seq<Move>)

  // ----- one rename after the other -----

  /** `git mv`: the source must exist and the target must not. */
  function Renamed(files: Files, m: Move): Option<Files> {
    if m.source == m.target then Some(files)
    else if m.source in files && m.target !in files
    then Some((files - {m.source})[m.target := files[m.source]])
    else None
  }

  /** Renames in order; the first failure stops everything. */
  function RunMoves(files: Files, ms: seq<Move>): (Files, bool) {
    if ms == [] then (files, true)
    else
      var (f, ok) := RunMoves(files, ms[..|ms|-1]);
      if !ok then (f, false)
      else
        var next := Renamed(f, ms[|ms|-1]);
        if next.Some? then (next.value, true) else (f, false)
  }

  ghost predicate Distinct(ms: seq<Move>) {
    && (forall j, k :: 0 <= j < k < |ms| ==> ms[j].source != ms[k].source)
    && (forall j, k :: 0 <= j < k < |ms| ==> ms[j].target != ms[k].target)
  }

  ghost predicate IsSource(ms: seq<Move>, p: Path) {
    exists k :: 0 <= k < |ms| && ms[k].source == p
  }

  ghost predicate IsTarget(ms: seq<Move>, p: Path) {
    exists k :: 0 <= k < |ms| && ms[k].target == p
  }

  /** Each target is free when its turn comes: nothing is there, or what was there has moved. */
  ghost predicate FreeInTurn(files: Files, ms: seq<Move>) {
    forall k :: 0 <= k < |ms| && ms[k].target in files ==> IsSource(ms[..k+1], ms[k].target)
  }

  ghost predicate Arrived(files: Files, ms: seq<Move>, result: Files) {
    forall k :: 0 <= k < |ms| ==>
      ms[k].source in files && ms[k].target in result && result[ms[k].target] == files[ms[k].source]
  }

  ghost predicate Untouched(files: Files, ms: seq<Move>, result: Files) {
    forall p :: p in files && !IsSource(ms, p) ==> p in result && result[p] == files[p]
  }

  ghost predicate NothingElse(files: Files, ms: seq<Move>, result: Files) {
    forall p :: p in result ==> IsTarget(ms, p) || (p in files && !IsSource(ms, p))
  }

  /** Every source sits at its target with its content, and nothing else changed. */
  ghost predicate AllMoved(files: Files, ms: seq<Move>, result: Files) {
    Arrived(files, ms, result) && Untouched(files, ms, result) && NothingElse(files, ms, result)
  }

  lemma Snoc(init: seq<Move>, m: Move, p: Path)
    ensures IsSource(init + [m], p) <==> IsSource(init, p) || m.source == p
    ensures IsTarget(init + [m], p) <==> IsTarget(init, p) || m.target == p
  {
    var ms := init + [m];
    assert ms[|init|] == m;
    if IsSource(init, p) {
      var k :| 0 <= k < |init| && init[k].source == p;
      assert ms[k].source == p;
    }
    if IsTarget(init, p) {
      var k :| 0 <= k < |init| && init[k].target == p;
      assert ms[k].target == p;
    }
  }

  lemma DistinctSnoc(init: seq<Move>, m: Move)
    requires Distinct(init + [m])
    ensures Distinct(init) && !IsSource(init, m.source) && !IsTarget(init, m.target)
  {
    var ms := init + [m];
    assert ms[|init|] == m && forall k :: 0 <= k < |init| ==> ms[k] == init[k];
  }

  lemma FreeSnoc(files: Files, init: seq<Move>, m: Move)
    ensures FreeInTurn(files, init + [m]) <==>
      FreeInTurn(files, init) && (m.target in files ==> IsSource(init + [m], m.target))
  {
    var ms := init + [m];
    assert ms[|init|] == m && ms[..|init|+1] == ms;
    forall k | 0 <= k < |init| ensures ms[k] == init[k] && ms[..k+1] == init[..k+1] {}
    if FreeInTurn(files, ms) {
      assert m.target in files ==> IsSource(ms[..|init|+1], ms[|init|].target);
      forall k | 0 <= k < |init| && init[k].target in files ensures IsSource(init[..k+1], init[k].target) {
        assert ms[k].target in files;
      }
    }
  }

  /** The next rename goes through exactly when its target is free in its turn. */
  lemma NextMoveIff(files: Files, init: seq<Move>, m: Move, f: Files)
    requires Distinct(init + [m]) && m.source in files
    requires AllMoved(files, init, f) && FreeInTurn(files, init)
    ensures Renamed(f, m).Some? <==> FreeInTurn(files, init + [m])
  {
    DistinctSnoc(init, m);
    FreeSnoc(files, init, m);
    Snoc(init, m, m.target);
    assert m.source in f;
  }

  lemma MoveKeeps(files: Files, init: seq<Move>, m: Move, f: Files)
    requires Distinct(init + [m]) && m.source in files
    requires AllMoved(files, init, f) && FreeInTurn(files, init) && Renamed(f, m).Some?
    ensures AllMoved(files, init + [m], Renamed(f, m).value)
  {
    var ms, g := init + [m], Renamed(f, m).value;
    DistinctSnoc(init, m);
    assert m.source in f && f[m.source] == files[m.source];
    assert Arrived(files, ms, g) by {
      forall k | 0 <= k < |ms|
        ensures ms[k].source in files && ms[k].target in g && g[ms[k].target] == files[ms[k].source]
      {
        if k < |init| {
          assert ms[k] == init[k];
          assert init[k].target != m.source && init[k].target != m.target;
        }
      }
    }
    assert Untouched(files, ms, g) by {
      forall p | p in files && !IsSource(ms, p) ensures p in g && g[p] == files[p] {
        Snoc(init, m, p);
      }
    }
    assert NothingElse(files, ms, g) by {
      forall p | p in g ensures IsTarget(ms, p) || (p in files && !IsSource(ms, p)) {
        Snoc(init, m, p);
      }
    }
  }

  lemma InResultIff(files: Files, ms: seq<Move>, result: Files, p: Path)
    requires AllMoved(files, ms, result)
    ensures p in result <==> IsTarget(ms, p) || (p in files && !IsSource(ms, p))
  {
    if IsTarget(ms, p) {
      var k :| 0 <= k < |ms| && ms[k].target == p;
    }
  }

  /** Renames with distinct sources and distinct targets all go through exactly when each target is
      free in its turn; then every file is at its target with its content, and no other changed. */
  lemma {:induction false} RunMovesIff(files: Files, ms: seq<Move>)
    requires Distinct(ms) && forall k :: 0 <= k < |ms| ==> ms[k].source in files
    ensures RunMoves(files, ms).1 <==> FreeInTurn(files, ms)
    ensures RunMoves(files, ms).1 ==> AllMoved(files, ms, RunMoves(files, ms).0)
  {
    if ms != [] {
      var init, m := ms[..|ms|-1], ms[|ms|-1];
      assert ms == init + [m];
      DistinctSnoc(init, m);
      RunMovesIff(files, init);
      FreeSnoc(files, init, m);
      if RunMoves(files, init).1 {
        NextMoveIff(files, init, m, RunMoves(files, init).0);
        if RunMoves(files, ms).1 { MoveKeeps(files, init, m, RunMoves(files, init).0); }
      }
    }
  }

  // ----- the plan -----

  predicate Ascending(ns: seq<nat>) {
    forall i, j :: 0 <= i < j < |ns| ==> ns[i] < ns[j]
  }

  predicate EndsWith(s: string, e: string) {
    |e| <= |s| && s[|s|-|e|..] == e
  }

  /** Root files that move under their own name. */
  predicate Movable(b: string) {
    b == LONG_TERM || EndsWith(b, RETROS)
  }

  lemma MovableIff(b: string)
    ensures Movable(b) <==> b == "long-term.jsonl" || exists stem: string :: b == stem + "-retros.jsonl"
  {
    if EndsWith(b, RETROS) { assert b == b[..|b|-|RETROS|] + "-retros.jsonl"; }
    if stem: string :| b == stem + "-retros.jsonl" { assert b[|b|-|RETROS|..] == RETROS; }
  }

  ghost predicate NoRepeats<T>(xs: seq<T>) {
    forall i, j :: 0 <= i < j < |xs| ==> xs[i] != xs[j]
  }

  /** The listing is what is on disk.  Pages have six digits; what an earlier migration left at a staging
      name is not listed. */
  ghost predicate Lists(l: Listing, files: Files) {
    && Ascending(l.flat) && Ascending(l.canonical)
    && NoRepeats(l.off) && NoRepeats(l.offOther) && NoRepeats(l.longTerm + l.retros)
    && (forall n: nat :: n in l.flat <==> Root(Page(n)) in files)
    && (forall n: nat :: n in l.canonical <==> Canonical(Page(n)) in files)
    && (forall d, n: nat :: (d, n) in l.off <==> Elsewhere(d, Page(n)) in files)
    && (forall d, b :: (d, b) in l.offOther <==> Elsewhere(d, Plain(b)) in files)
    && (forall b :: b in l.longTerm + l.retros <==> Movable(b) && Root(Plain(b)) in files)
    && (l.memories <==> Root(Plain(MEMORIES)) in files)
    && (forall p :: p in files && p.name.Page? ==> p.name.num <= LAST_PAGE)
  }

  /** The number after the flat pages. */
  function Start(l: Listing): nat {
    if l.flat == [] then 1 else l.flat[|l.flat|-1] + 1
  }

  /** Where canonical page i goes; it may be where it is. */
  function Renumber(l: Listing, i: nat): Move
    requires i < |l.canonical|
  {
    Move(Canonical(Page(l.canonical[i])), Canonical(Page(Start(l) + i)))
  }

  /** The canonical pages that change their number, in ascending order. */
  function Renumbers(l: Listing, n: nat): seq<Move>
    requires n <= |l.canonical|
  {
    if n == 0 then []
    else
      var m := Renumber(l, n - 1);
      Renumbers(l, n - 1) + if m.source == m.target then [] else [m]
  }

  function OffPages(l: Listing): seq<Move> {
    seq(|l.off|, k requires 0 <= k < |l.off| =>
      Move(Elsewhere(l.off[k].0, Page(l.off[k].1)), Canonical(Page(Start(l) + |l.canonical| + k))))
  }

  function OffOthers(l: Listing): seq<Move> {
    seq(|l.offOther|, k requires 0 <= k < |l.offOther| =>
      Move(Elsewhere(l.offOther[k].0, Plain(l.offOther[k].1)), Canonical(Plain(l.offOther[k].1))))
  }

  function FlatPages(l: Listing): seq<Move> {
    seq(|l.flat|, k requires 0 <= k < |l.flat| => Move(Root(Page(l.flat[k])), Canonical(Page(l.flat[k]))))
  }

  function PlainMoves(bs: seq<string>): seq<Move> {
    seq(|bs|, k requires 0 <= k < |bs| => Move(Root(Plain(bs[k])), Canonical(Plain(bs[k]))))
  }

  function MemoriesMove(l: Listing): seq<Move> {
    if l.memories
    then [Move(Root(Plain(MEMORIES)), Canonical(Page(Start(l) + |l.canonical| + |l.off|)))]
    else []
  }

  function Moves(l: Listing): seq<Move> {
    OffPages(l) + OffOthers(l) + FlatPages(l) + PlainMoves(l.longTerm) + MemoriesMove(l) + PlainMoves(l.retros)
  }

  function PlanOf(l: Listing): Option<Plan> {
    var p := Plan(Renumbers(l, |l.canonical|), Moves(l));
    if p.renumbers == [] && p.moves == [] then None else Some(p)
  }

  /** The planner's counter runs on past the canonical pages. */
  method PlanRenumbers(l: Listing) returns (renumbers: seq<Move>, nextNum: nat)
    ensures renumbers == Renumbers(l, |l.canonical|) && nextNum == Start(l) + |l.canonical|
  {
    var flatMaxNum := if l.flat != [] then l.flat[|l.flat|-1] else 0;
    renumbers, nextNum := [], flatMaxNum + 1;
    for i := 0 to |l.canonical|
      invariant nextNum == Start(l) + i && renumbers == Renumbers(l, i)
    {
      if l.canonical[i] != nextNum {
        renumbers := renumbers + [Move(Canonical(Page(l.canonical[i])), Canonical(Page(nextNum)))];
      }
      nextNum := nextNum + 1;
    }
  }

  /** Pages from elsewhere go on with the counter; other files keep their name. */
  method PlanOff(l: Listing, start: nat) returns (moves: seq<Move>, nextNum: nat)
    requires start == Start(l) + |l.canonical|
    ensures moves == OffPages(l) + OffOthers(l) && nextNum == start + |l.off|
  {
    moves, nextNum := [], start;
    for k := 0 to |l.off|
      invariant nextNum == start + k && moves == OffPages(l)[..k]
    {
      moves := moves + [Move(Elsewhere(l.off[k].0, Page(l.off[k].1)), Canonical(Page(nextNum)))];
      nextNum := nextNum + 1;
    }
    for k := 0 to |l.offOther|
      invariant moves == OffPages(l) + OffOthers(l)[..k]
    {
      moves := moves + [Move(Elsewhere(l.offOther[k].0, Plain(l.offOther[k].1)), Canonical(Plain(l.offOther[k].1)))];
    }
  }

  /** The plan, or none when nothing has to move. */
  method PlanBranchMigration(l: Listing) returns (plan: Option<Plan>)
    ensures plan == PlanOf(l)
  {
    var renumbers, nextNum := PlanRenumbers(l);
    var moves;
    moves, nextNum := PlanOff(l, nextNum);
    moves := moves + FlatPages(l) + PlainMoves(l.longTerm);
    if l.memories {
      var noNumbered := l.flat == [] && l.canonical == [] && l.off == [];
      var memTarget := if noNumbered then 1 else nextNum;
      moves := moves + [Move(Root(Plain(MEMORIES)), Canonical(Page(memTarget)))];
    }
    moves := moves + PlainMoves(l.retros);
    assert moves == Moves(l);
    if moves == [] && renumbers == [] { return None; }
    plan := Some(Plan(renumbers, moves));
  }

  // ----- carrying it out -----

  predicate TargetsDistinct(ms: seq<Move>) {
    forall j, k :: 0 <= j < k < |ms| ==> ms[j].target != ms[k].target
  }

  function Backwards(ms: seq<Move>): seq<Move> {
    seq(|ms|, k requires 0 <= k < |ms| => ms[|ms|-1-k])
  }

  /** The renames a plan comes down to: renumberings from the highest page down, then the moves. */
  function Steps(p: Plan): seq<Move> {
    Backwards(p.renumbers) + p.moves
  }

  /** The canonical renames as they are carried out, each by way of the source's staging name. */
  function ThroughStaging(ms: seq<Move>): seq<Move> {
    if ms == [] then []
    else
      var m := ms[|ms|-1];
      ThroughStaging(ms[..|ms|-1]) + [Move(m.source, Staged(m.source.name)), Move(Staged(m.source.name), m.target)]
  }

  /** Every `git mv` of a plan, in order. */
  function Renames(p: Plan): seq<Move> {
    ThroughStaging(Backwards(p.renumbers)) + p.moves
  }

  /** What is carried out: nothing at all when two files would get the same target. */
  function Executed(p: Plan): seq<Move> {
    if TargetsDistinct(Steps(p)) then Renames(p) else []
  }

  predicate Stageable(ms: seq<Move>) {
    forall m :: m in ms ==> m.source.Canonical? && m.target.Canonical? && m.source != m.target
  }

  class Worktree {
    var files: Files

    constructor (f: Files)
      ensures files == f
    {
      files := f;
    }

    method GitMv(source: Path, target: Path) returns (ok: bool)
      requires source != target
      modifies this
      ensures ok == Renamed(old(files), Move(source, target)).Some?
      ensures files == if ok then Renamed(old(files), Move(source, target)).value else old(files)
    {
      ok := source in files && target !in files;
      if ok { files := (files - {source})[target := files[source]]; }
    }

    /** Stops before touching anything when two files would get the same target; otherwise renames in
        order and stops at the first rename that fails, leaving what was done. */
    method ApplyPlan(p: Plan) returns (ok: bool)
      requires Stageable(p.renumbers) && forall m :: m in p.moves ==> m.source != m.target
      modifies this
      ensures !TargetsDistinct(Steps(p)) ==> !ok && files == old(files)
      ensures TargetsDistinct(Steps(p)) ==> (files, ok) == RunMoves(old(files), Renames(p))
    {
      ok := Preflight(Steps(p));
      if !ok { return; }
      var back := Backwards(p.renumbers);
      RunConcat(files, ThroughStaging(back), p.moves);
      assert forall m :: m in back ==> m in p.renumbers;
      ok := ApplyRenumbers(back);
      if !ok { return; }
      ok := ApplyMoves(p.moves);
    }

    method ApplyRenumbers(ms: seq<Move>) returns (ok: bool)
      requires Stageable(ms)
      modifies this
      ensures (files, ok) == RunMoves(old(files), ThroughStaging(ms))
    {
      for k := 0 to |ms|
        invariant RunMoves(old(files), ThroughStaging(ms[..k])) == (files, true)
      {
        assert ms[k] in ms && ms[..k+1] == ms[..k] + [ms[k]];
        ghost var before := files;
        ok := RenameStaged(ms[k]);
        OnePairMore(old(files), ms[..k], ms[k], before);
        if !ok {
          assert ms == ms[..k+1] + ms[k+1..];
          ThroughConcat(ms[..k+1], ms[k+1..]);
          RunConcat(old(files), ThroughStaging(ms[..k+1]), ThroughStaging(ms[k+1..]));
          return;
        }
      }
      assert ms[..|ms|] == ms;
      ok := true;
    }

    method ApplyMoves(ms: seq<Move>) returns (ok: bool)
      requires forall m :: m in ms ==> m.source != m.target
      modifies this
      ensures (files, ok) == RunMoves(old(files), ms)
    {
      for k := 0 to |ms|
        invariant RunMoves(old(files), ms[..k]) == (files, true)
      {
        assert ms[k] in ms && ms[..k+1][..k] == ms[..k];
        ok := GitMv(ms[k].source, ms[k].target);
        if !ok {
          assert ms == ms[..k+1] + ms[k+1..];
          RunConcat(old(files), ms[..k+1], ms[k+1..]);
          return;
        }
      }
      assert ms[..|ms|] == ms;
      ok := true;
    }

    method Preflight(steps: seq<Move>) returns (ok: bool)
      ensures ok == TargetsDistinct(steps)
    {
      var targets := {};
      for k := 0 to |steps|
        invariant TargetsDistinct(steps[..k])
        invariant forall t :: t in targets <==> exists j :: 0 <= j < k && steps[j].target == t
      {
        if steps[k].target in targets {
          var j :| 0 <= j < k && steps[j].target == steps[k].target;
          return false;
        }
        targets := targets + {steps[k].target};
      }
      assert steps[..|steps|] == steps;
      ok := true;
    }

    /** Renames by way of the staging name.  It goes through when source, staging name and target allow;
        when only the target is taken, the file is left at its staging name; otherwise nothing changes. */
    method RenameStaged(m: Move) returns (ok: bool)
      requires m.source.Canonical? && m.target.Canonical? && m.source != m.target
      modifies this
      ensures ok == (m.source in old(files) && Staged(m.source.name) !in old(files) && m.target !in old(files))
      ensures ok ==> files == Renamed(old(files), m).value
      ensures m.source !in old(files) || Staged(m.source.name) in old(files) ==> files == old(files)
      ensures m.source in old(files) && Staged(m.source.name) !in old(files) && m.target in old(files) ==>
        files == (old(files) - {m.source})[Staged(m.source.name) := old(files)[m.source]]
    {
      var stage := Staged(m.source.name);
      ok := GitMv(m.source, stage);
      if !ok { return; }
      ok := GitMv(stage, m.target);
      assert ok ==> files == Renamed(old(files), m).value;
    }
  }

  // ----- renames by way of staging names -----

  /** What renaming one file by way of its staging name comes to. */
  function Pair(f: Files, m: Move): (Files, bool)
    requires m.source != m.target
  {
    var stage := Staged(m.source.name);
    if m.source !in f || stage in f then (f, false)
    else if m.target in f then ((f - {m.source})[stage := f[m.source]], false)
    else (Renamed(f, m).value, true)
  }

  lemma PairIs(files: Files, ms: seq<Move>, a: Move, b: Move, f: Files)
    requires RunMoves(files, ms) == (f, true)
    ensures RunMoves(files, ms + [a, b]) ==
      var g := Renamed(f, a);
      if g.None? then (f, false)
      else
        var h := Renamed(g.value, b);
        if h.None? then (g.value, false) else (h.value, true)
  {
    var one := ms + [a];
    assert one[..|ms|] == ms && ms + [a, b] == one + [b];
    assert (one + [b])[..|one|] == one;
  }

  lemma OnePairMore(files: Files, init: seq<Move>, m: Move, f: Files)
    requires m.source.Canonical? && m.target.Canonical? && m.source != m.target
    requires RunMoves(files, ThroughStaging(init)) == (f, true)
    ensures RunMoves(files, ThroughStaging(init + [m])) == Pair(f, m)
  {
    var stage := Staged(m.source.name);
    assert (init + [m])[..|init|] == init;
    PairIs(files, ThroughStaging(init), Move(m.source, stage), Move(stage, m.target), f);
    if m.source in f && stage !in f && m.target !in f {
      var g := (f - {m.source})[stage := f[m.source]];
      assert (g - {stage})[m.target := g[stage]] == Renamed(f, m).value;
    }
  }

  lemma {:induction false} ThroughConcat(xs: seq<Move>, ys: seq<Move>)
    ensures ThroughStaging(xs + ys) == ThroughStaging(xs) + ThroughStaging(ys)
    decreases |ys|
  {
    if ys == [] {
      assert xs + ys == xs;
    } else {
      ThroughConcat(xs, ys[..|ys|-1]);
      assert (xs + ys)[..|xs + ys|-1] == xs + ys[..|ys|-1];
    }
  }

  /** Renaming canonical files leaves the staging names as they are. */
  lemma {:induction false} StagedAsBefore(files: Files, ms: seq<Move>, n: Name)
    requires Stageable(ms)
    ensures Staged(n) in RunMoves(files, ms).0 <==> Staged(n) in files
  {
    if ms != [] {
      assert ms[|ms|-1] in ms;
      StagedAsBefore(files, ms[..|ms|-1], n);
    }
  }

  /** No file stands at a staging name that the renames use. */
  ghost predicate StagesFree(files: Files, ms: seq<Move>) {
    forall m :: m in ms ==> Staged(m.source.name) !in files
  }

  /** By way of staging names the renames go through exactly when they would at once and the staging names
      are free; then the result is the same. */
  lemma {:induction false} ThroughStagingIff(files: Files, ms: seq<Move>)
    requires Stageable(ms)
    ensures RunMoves(files, ThroughStaging(ms)).1 <==> RunMoves(files, ms).1 && StagesFree(files, ms)
    ensures RunMoves(files, ThroughStaging(ms)).1 ==> RunMoves(files, ThroughStaging(ms)) == RunMoves(files, ms)
  {
    if ms != [] {
      var init, m := ms[..|ms|-1], ms[|ms|-1];
      assert ms == init + [m] && m in ms;
      ThroughStagingIff(files, init);
      var (f, ok) := RunMoves(files, ThroughStaging(init));
      if ok {
        OnePairMore(files, init, m, f);
        StagedAsBefore(files, init, m.source.name);
      } else {
        ThroughConcat(init, [m]);
        RunConcat(files, ThroughStaging(init), ThroughStaging([m]));
      }
    }
  }

  // ----- runs that stop -----

  /** A run that stops has done the renames before the one that failed, and nothing else. */
  lemma {:induction false} RunStops(files: Files, ms: seq<Move>) returns (k: nat)
    requires !RunMoves(files, ms).1
    ensures k < |ms| && RunMoves(files, ms[..k]) == (RunMoves(files, ms).0, true)
    ensures Renamed(RunMoves(files, ms).0, ms[k]).None?
  {
    var n := |ms| - 1;
    if RunMoves(files, ms[..n]).1 {
      k := n;
    } else {
      k := RunStops(files, ms[..n]);
      assert ms[..n][..k] == ms[..k];
    }
  }

  /** Where the file that was at p is after a run, completed or not. */
  function Now(files: Files, ms: seq<Move>, p: Path): Path {
    if ms == [] then p
    else
      var init, m := ms[..|ms|-1], ms[|ms|-1];
      var (f, ok) := RunMoves(files, init);
      var q := Now(files, init, p);
      if ok && Renamed(f, m).Some? && q == m.source then m.target else q
  }

  /** The files of the result are those of the start, each in one place and with its content. */
  ghost predicate Conserved(files: Files, ms: seq<Move>, result: Files) {
    && (forall p :: p in files ==> Now(files, ms, p) in result && result[Now(files, ms, p)] == files[p])
    && (forall p, q :: p in files && q in files && Now(files, ms, p) == Now(files, ms, q) ==> p == q)
    && (forall q :: q in result ==> CameFrom(files, ms, q))
  }

  ghost predicate CameFrom(files: Files, ms: seq<Move>, q: Path) {
    exists p :: p in files && Now(files, ms, p) == q
  }

  function Moved(m: Move, q: Path): Path {
    if q == m.source then m.target else q
  }

  lemma NowSnoc(files: Files, init: seq<Move>, m: Move, f: Files, p: Path)
    requires RunMoves(files, init) == (f, true) && Renamed(f, m).Some?
    ensures Now(files, init + [m], p) == Moved(m, Now(files, init, p))
  {
    assert (init + [m])[..|init|] == init;
  }

  lemma MovedKeeps(f: Files, m: Move, q: Path)
    requires Renamed(f, m).Some? && q in f
    ensures var g := Renamed(f, m).value; Moved(m, q) in g && g[Moved(m, q)] == f[q]
  {
  }

  lemma MovedApart(f: Files, m: Move, q: Path, q': Path)
    requires Renamed(f, m).Some? && q in f && q' in f && Moved(m, q) == Moved(m, q')
    ensures q == q'
  {
  }

  lemma MovedFrom(f: Files, m: Move, q: Path) returns (before: Path)
    requires Renamed(f, m).Some? && q in Renamed(f, m).value
    ensures before in f && Moved(m, before) == q
  {
    before := if q == m.target then m.source else q;
  }

  lemma OneMoveConserves(files: Files, init: seq<Move>, m: Move, f: Files)
    requires RunMoves(files, init) == (f, true) && Conserved(files, init, f)
    requires Renamed(f, m).Some?
    ensures Conserved(files, init + [m], Renamed(f, m).value)
  {
    var ms, g := init + [m], Renamed(f, m).value;
    forall p | p in files ensures Now(files, ms, p) in g && g[Now(files, ms, p)] == files[p] {
      NowSnoc(files, init, m, f, p);
      MovedKeeps(f, m, Now(files, init, p));
    }
    forall p, q | p in files && q in files && Now(files, ms, p) == Now(files, ms, q) ensures p == q {
      NowSnoc(files, init, m, f, p);
      NowSnoc(files, init, m, f, q);
      MovedApart(f, m, Now(files, init, p), Now(files, init, q));
    }
    forall q | q in g ensures CameFrom(files, ms, q) {
      var before := MovedFrom(f, m, q);
      assert CameFrom(files, init, before);
      var p :| p in files && Now(files, init, p) == before;
      NowSnoc(files, init, m, f, p);
    }
  }

  /** No run of renames, however it ends, loses a file, overwrites one or makes one up. */
  lemma {:induction false} RunConserves(files: Files, ms: seq<Move>)
    ensures Conserved(files, ms, RunMoves(files, ms).0)
  {
    if ms == [] {
      forall q | q in files ensures CameFrom(files, ms, q) { assert Now(files, ms, q) == q; }
    } else {
      var init, m := ms[..|ms|-1], ms[|ms|-1];
      RunConserves(files, init);
      var (f, ok) := RunMoves(files, init);
      if ok && Renamed(f, m).Some? {
        OneMoveConserves(files, init, m, f);
        assert ms == init + [m];
      } else {
        SameConserved(files, init, ms, f);
      }
    }
  }

  lemma SameConserved(files: Files, init: seq<Move>, ms: seq<Move>, f: Files)
    requires Conserved(files, init, f) && forall p :: Now(files, ms, p) == Now(files, init, p)
    ensures Conserved(files, ms, f)
  {
    forall q | q in f ensures CameFrom(files, ms, q) {
      assert CameFrom(files, init, q);
      var p :| p in files && Now(files, init, p) == q;
      assert Now(files, ms, p) == q;
    }
  }

  /** A file at a staging name stays there: the rename that would use the name fails. */
  lemma {:induction false} PairsLeaveStaged(files: Files, ms: seq<Move>, n: Name)
    requires Stageable(ms) && Staged(n) in files
    ensures var f := RunMoves(files, ThroughStaging(ms)).0; Staged(n) in f && f[Staged(n)] == files[Staged(n)]
  {
    if ms != [] {
      var init, m := ms[..|ms|-1], ms[|ms|-1];
      assert ms == init + [m] && m in ms;
      PairsLeaveStaged(files, init, n);
      var (f, ok) := RunMoves(files, ThroughStaging(init));
      if ok {
        OnePairMore(files, init, m, f);
      } else {
        ThroughConcat(init, [m]);
        RunConcat(files, ThroughStaging(init), ThroughStaging([m]));
      }
    }
  }

  lemma {:induction false} MovesLeave(files: Files, ms: seq<Move>, p: Path)
    requires p in files && forall m :: m in ms ==> m.source != p
    ensures var f := RunMoves(files, ms).0; p in f && f[p] == files[p]
  {
    if ms != [] {
      assert ms[|ms|-1] in ms;
      MovesLeave(files, ms[..|ms|-1], p);
    }
  }

  /** So no migration ever moves a file that is at a staging name, nor overwrites it. */
  lemma StagedStays(files: Files, p: Plan, n: Name)
    requires Stageable(p.renumbers) && (forall m :: m in p.moves ==> !m.source.Staged?) && Staged(n) in files
    ensures var f := RunMoves(files, Executed(p)).0; Staged(n) in f && f[Staged(n)] == files[Staged(n)]
  {
    if TargetsDistinct(Steps(p)) {
      var back := Backwards(p.renumbers);
      assert forall m :: m in back ==> m in p.renumbers;
      PairsLeaveStaged(files, back, n);
      RunConcat(files, ThroughStaging(back), p.moves);
      MovesLeave(RunMoves(files, ThroughStaging(back)).0, p.moves, Staged(n));
    }
  }

  lemma {:induction false} RunConcat(files: Files, xs: seq<Move>, ys: seq<Move>)
    ensures RunMoves(files, xs + ys) ==
      if RunMoves(files, xs).1 then RunMoves(RunMoves(files, xs).0, ys) else RunMoves(files, xs)
    decreases |ys|
  {
    if ys == [] {
      assert xs + ys == xs;
    } else {
      RunConcat(files, xs, ys[..|ys|-1]);
      assert (xs + ys)[..|xs + ys|-1] == xs + ys[..|ys|-1];
    }
  }

  // ----- following one file -----

  lemma {:induction false} NowConcat(files: Files, xs: seq<Move>, ys: seq<Move>, p: Path)
    ensures Now(files, xs + ys, p) ==
      if RunMoves(files, xs).1 then Now(RunMoves(files, xs).0, ys, Now(files, xs, p)) else Now(files, xs, p)
    decreases |ys|
  {
    if ys == [] {
      assert xs + ys == xs;
    } else {
      var init := ys[..|ys|-1];
      NowConcat(files, xs, init, p);
      RunConcat(files, xs, init);
      assert (xs + ys)[..|xs + ys|-1] == xs + init;
    }
  }

  lemma NowWhenStopped(files: Files, xs: seq<Move>, ys: seq<Move>, p: Path)
    requires !RunMoves(files, xs).1
    ensures Now(files, xs + ys, p) == Now(files, xs, p)
  {
    NowConcat(files, xs, ys, p);
  }

  lemma {:induction false} NowIsHere(files: Files, ms: seq<Move>, p: Path)
    requires forall m :: m in ms ==> m.source != p
    ensures Now(files, ms, p) == p
  {
    if ms != [] {
      assert ms[|ms|-1] in ms;
      NowIsHere(files, ms[..|ms|-1], p);
    }
  }

  /** A page whose target is taken is left at its staging name. */
  lemma NowInPair(files: Files, init: seq<Move>, m: Move, f: Files)
    requires RunMoves(files, ThroughStaging(init)) == (f, true) && Now(files, ThroughStaging(init), m.source) == m.source
    requires m.source.Canonical? && m.target.Canonical? && m.source != m.target
    requires m.source in f && Staged(m.source.name) !in f && m.target in f
    ensures Now(files, ThroughStaging(init + [m]), m.source) == Staged(m.source.name)
  {
    var a, b := Move(m.source, Staged(m.source.name)), Move(Staged(m.source.name), m.target);
    assert (init + [m])[..|init|] == init;
    NowSnoc(files, ThroughStaging(init), a, f, m.source);
    var one := ThroughStaging(init) + [a];
    assert one[..|ThroughStaging(init)|] == ThroughStaging(init);
    assert ThroughStaging(init + [m]) == one + [b] && (one + [b])[..|one|] == one;
  }

  lemma NowAtStage(files: Files, init: seq<Move>, m: Move, f: Files, rest: seq<Move>)
    requires RunMoves(files, ThroughStaging(init)) == (f, true)
    requires forall x :: x in ThroughStaging(init) ==> x.source != m.source
    requires m.source.Canonical? && m.target.Canonical? && m.source != m.target
    requires m.source in f && Staged(m.source.name) !in f && m.target in f
    ensures Now(files, ThroughStaging(init + [m]) + rest, m.source) == Staged(m.source.name)
  {
    NowIsHere(files, ThroughStaging(init), m.source);
    NowInPair(files, init, m, f);
    OnePairMore(files, init, m, f);
    NowWhenStopped(files, ThroughStaging(init + [m]), rest, m.source);
  }

  lemma {:induction false} PairsLeaveStagedNow(files: Files, ms: seq<Move>, n: Name)
    requires Stageable(ms) && Staged(n) in files
    ensures Now(files, ThroughStaging(ms), Staged(n)) == Staged(n)
  {
    if ms != [] {
      var init, m := ms[..|ms|-1], ms[|ms|-1];
      assert ms == init + [m] && m in ms;
      PairsLeaveStagedNow(files, init, n);
      ThroughConcat(init, [m]);
      var (f, ok) := RunMoves(files, ThroughStaging(init));
      if ok {
        PairsLeaveStaged(files, init, n);
        PairLeavesStaged(files, init, m, f, n);
      } else {
        NowWhenStopped(files, ThroughStaging(init), ThroughStaging([m]), Staged(n));
      }
    }
  }

  lemma PairLeavesStaged(files: Files, init: seq<Move>, m: Move, f: Files, n: Name)
    requires RunMoves(files, ThroughStaging(init)) == (f, true) && Now(files, ThroughStaging(init), Staged(n)) == Staged(n)
    requires m.source.Canonical? && Staged(n) in f
    ensures Now(files, ThroughStaging(init + [m]), Staged(n)) == Staged(n)
  {
    var done, a, b := ThroughStaging(init), Move(m.source, Staged(m.source.name)), Move(Staged(m.source.name), m.target);
    assert (init + [m])[..|init|] == init;
    var one := done + [a];
    assert one[..|done|] == done;
    assert ThroughStaging(init + [m]) == one + [b] && (one + [b])[..|one|] == one;
  }

  /** Nor does a migration take away a file at a staging name: it is the same file that stays there. */
  lemma StagedIsNow(files: Files, p: Plan, n: Name)
    requires Stageable(p.renumbers) && (forall m :: m in p.moves ==> !m.source.Staged?) && Staged(n) in files
    ensures Now(files, Executed(p), Staged(n)) == Staged(n)
  {
    if TargetsDistinct(Steps(p)) {
      var back := Backwards(p.renumbers);
      assert forall m :: m in back ==> m in p.renumbers;
      PairsLeaveStagedNow(files, back, n);
      NowConcat(files, ThroughStaging(back), p.moves, Staged(n));
      NowIsHere(RunMoves(files, ThroughStaging(back)).0, p.moves, Staged(n));
    }
  }
}
