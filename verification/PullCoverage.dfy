/**
 What any sequence of pull cycles achieves: with every git read succeeding, all lines added since
 the first stored starting point are in the index, and an interrupted cycle loses nothing.  A
 failed read breaks it, because the cursor moves all the same.
 */
module PullCoverage {
  import opened Wrappers
  import opened L1Log
  import opened Ingest
  import opened Readers
  import opened PullLoop

  // ----- ingested for good -----

  /** The index knows the line: its id is there, and deleted if the line is a tombstone. */
  predicate Absorbed(m: Memories, l: Line) {
    l.payload.content == "" || (l.id in m && (l.tomb ==> m[l.id].deleted))
  }

  lemma {:induction false} StaysAbsorbed(m: Memories, ls: seq<Line>, l: Line)
    requires Absorbed(m, l) || l in ls
    ensures Absorbed(IngestAll(m, ls), l)
  {
    if ls != [] {
      var init, last := ls[..|ls|-1], ls[|ls|-1];
      if l != last { StaysAbsorbed(m, init, l); }
      else if Absorbed(m, l) { StaysAbsorbed(m, init, l); }
    }
  }

  lemma {:induction false} IngestAgain(m: Memories, ls: seq<Line>)
    requires forall l :: l in ls ==> Absorbed(m, l)
    ensures IngestAll(m, ls) == m
  {
    if ls != [] {
      IngestAgain(m, ls[..|ls|-1]);
      assert Absorbed(m, ls[|ls|-1]);
    }
  }

  /** Ingesting a front part first changes nothing. */
  lemma PrefixIsHarmless(m: Memories, part: seq<Line>, all: seq<Line>)
    requires part <= all
    ensures IngestAll(IngestAll(m, part), all) == IngestAll(m, all)
  {
    var m1 := IngestAll(m, part);
    assert all == part + all[|part|..];
    IngestAllConcat(m, part, all[|part|..]);
    IngestAllConcat(m1, part, all[|part|..]);
    forall l | l in part ensures Absorbed(m1, l) { StaysAbsorbed(m, part, l); }
    IngestAgain(m1, part);
  }

  // ----- what a commit adds -----

  predicate Holds(tree: Tree, p: Path, raw: Raw) {
    p in tree && Some(raw) in tree[p]
  }

  /** Commit i puts the line into a file that did not hold it before. */
  predicate Adds(log: Log, i: nat, p: Path, raw: Raw)
    requires 0 < i < |log|
  {
    IsJsonl(p) && Holds(log[i].tree, p, raw) && !Holds(log[i-1].tree, p, raw)
  }

  predicate Changed(before: Tree, after: Tree, p: Path)
    requires p in after
  {
    p !in before || before[p] != after[p]
  }

  /** `diff-tree` lists every file whose lines changed. */
  ghost predicate FaithfulDiffs(log: Log) {
    forall i, p :: 0 < i < |log| && p in log[i].tree && Changed(log[i-1].tree, log[i].tree, p) ==>
      p in log[i].changed
  }

  /** The line a well-formed entry stands for; no clock is involved. */
  function LineOf(raw: Raw): Line
    requires WellFormed(raw)
  {
    PullRead(raw, "").value
  }

  lemma {:induction false} JsonlKept(ps: seq<Path>, p: Path)
    requires p in ps && IsJsonl(p)
    ensures p in JsonlOnly(ps)
  {
    if p != ps[|ps|-1] { JsonlKept(ps[..|ps|-1], p); }
  }

  lemma {:induction false} FileGivesLine(file: File, raw: Raw, now: string)
    requires Some(raw) in file && WellFormed(raw)
    ensures LineOf(raw) in ParseFile(file, now)
  {
    if Some(raw) == file[|file|-1] {
      assert PullRead(raw, now) == PullRead(raw, "");
    } else {
      FileGivesLine(file[..|file|-1], raw, now);
    }
  }

  lemma {:induction false} PartGivesLine(parts: seq<seq<Line>>, k: nat, l: Line)
    requires k < |parts| && l in parts[k]
    ensures l in Concat(parts)
  {
    if k < |parts| - 1 { PartGivesLine(parts[..|parts|-1], k, l); }
  }

  /** No read that matters fails: the root has no diff, and only JSONL files are shown. */
  predicate Harmless(f: Failures) {
    && !f.revList
    && (forall i :: i in f.diffs ==> i == 0)
    && (forall s :: s in f.shows ==> s.0 == 0 || !IsJsonl(s.1))
  }

  lemma AddedLineIsPlanned(log: Log, cursor: Option<nat>, f: Failures, now: string, i: nat, p: Path, raw: Raw)
    requires FaithfulDiffs(log) && 0 < i < |log| && FirstCommit(log, cursor) <= i
    requires !f.fetch && Harmless(f)
    requires Adds(log, i, p, raw) && WellFormed(raw)
    ensures LineOf(raw) in Planned(log, cursor, f, now)
  {
    var files, from := FilesIn(log, i, f), FirstCommit(log, cursor);
    JsonlKept(log[i].changed, p);
    var k :| 0 <= k < |files| && files[k] == p;
    FileGivesLine(log[i].tree[p], raw, now);
    PartGivesLine(PerFile(log, i, files, f, now), k, LineOf(raw));
    assert PerCommit(log, from, f, now)[i-from] == CommitLines(log, i, f, now);
    PartGivesLine(PerCommit(log, from, f, now), i - from, LineOf(raw));
  }

  // ----- which lines a cycle plans -----

  /** Where a cycle starts; the root's diff is empty. */
  function StartOf(log: Log, cursor: Option<nat>): nat {
    if FirstCommit(log, cursor) == 0 then 1 else FirstCommit(log, cursor)
  }

  /** Commit i lists a JSONL file that holds the line. */
  predicate Shows(log: Log, i: nat, p: Path, l: Line, now: string)
    requires i < |log|
  {
    p in JsonlOnly(log[i].changed) && p in log[i].tree && l in ParseFile(log[i].tree[p], now)
  }

  lemma {:induction false} JsonlOnlyIff(ps: seq<Path>, p: Path)
    ensures p in JsonlOnly(ps) <==> p in ps && exists stem: string :: p == stem + ".jsonl"
  {
    if ps != [] {
      JsonlOnlyIff(ps[..|ps|-1], p);
      if IsJsonl(p) { assert p == p[..|p|-6] + ".jsonl"; }
      if stem: string :| p == stem + ".jsonl" { assert p[|p|-6..] == ".jsonl"; }
    }
  }

  lemma {:induction false} ParseFileIff(file: File, now: string, l: Line)
    ensures l in ParseFile(file, now) <==> exists raw :: Some(raw) in file && PullRead(raw, now) == Some(l)
  {
    if file != [] {
      var init, last := file[..|file|-1], file[|file|-1];
      ParseFileIff(init, now, l);
      assert forall x :: x in file <==> x in init || x == last;
      if raw :| Some(raw) in init && PullRead(raw, now) == Some(l) { assert Some(raw) in file; }
      if last.Some? && PullRead(last.value, now) == Some(l) { assert Some(last.value) in file; }
    }
  }

  /** That is a path ending in ".jsonl" that diff-tree lists, and an entry of that file that is read as the
      line. */
  lemma ShowsIff(log: Log, i: nat, p: Path, l: Line, now: string)
    requires i < |log|
    ensures Shows(log, i, p, l, now) <==>
      && p in log[i].changed && (exists stem: string :: p == stem + ".jsonl") && p in log[i].tree
      && exists raw :: Some(raw) in log[i].tree[p] && PullRead(raw, now) == Some(l)
  {
    JsonlOnlyIff(log[i].changed, p);
    if p in log[i].tree { ParseFileIff(log[i].tree[p], now, l); }
  }

  lemma {:induction false} LineInPart(parts: seq<seq<Line>>, l: Line) returns (k: nat)
    requires l in Concat(parts)
    ensures k < |parts| && l in parts[k]
  {
    if l in parts[|parts|-1] { k := |parts| - 1; }
    else { k := LineInPart(parts[..|parts|-1], l); }
  }

  lemma CommitShows(log: Log, i: nat, l: Line, now: string)
    requires i < |log|
    ensures l in CommitLines(log, i, NO_FAILURES, now) <==> 0 < i && exists p :: Shows(log, i, p, l, now)
  {
    var files := FilesIn(log, i, NO_FAILURES);
    var parts := PerFile(log, i, files, NO_FAILURES, now);
    if l in Concat(parts) {
      var k := LineInPart(parts, l);
      assert Shows(log, i, files[k], l, now);
    }
    if 0 < i && exists p :: Shows(log, i, p, l, now) {
      var p :| Shows(log, i, p, l, now);
      var k :| 0 <= k < |files| && files[k] == p;
      PartGivesLine(parts, k, l);
    }
  }

  lemma PlannedIsShown(log: Log, cursor: Option<nat>, now: string, l: Line) returns (i: nat, p: Path)
    requires l in Planned(log, cursor, NO_FAILURES, now)
    ensures StartOf(log, cursor) <= i < |log| && Shows(log, i, p, l, now)
  {
    var from := FirstCommit(log, cursor);
    var k := LineInPart(PerCommit(log, from, NO_FAILURES, now), l);
    i := from + k;
    CommitShows(log, i, l, now);
    p :| Shows(log, i, p, l, now);
  }

  lemma ShownIsPlanned(log: Log, cursor: Option<nat>, now: string, l: Line, i: nat, p: Path)
    requires StartOf(log, cursor) <= i < |log| && Shows(log, i, p, l, now)
    ensures l in Planned(log, cursor, NO_FAILURES, now)
  {
    var from := FirstCommit(log, cursor);
    var parts := PerCommit(log, from, NO_FAILURES, now);
    CommitShows(log, i, l, now);
    assert parts[i-from] == CommitLines(log, i, NO_FAILURES, now);
    PartGivesLine(parts, i - from, l);
  }

  /** A line is planned exactly when some commit from the start on, other than the root, lists a file
      that holds it.  So the lines of the root are ingested only once a later commit touches their
      page. */
  lemma PlannedIff(log: Log, cursor: Option<nat>, now: string, l: Line)
    ensures l in Planned(log, cursor, NO_FAILURES, now) <==>
      exists i: nat, p :: StartOf(log, cursor) <= i < |log| && Shows(log, i, p, l, now)
  {
    if l in Planned(log, cursor, NO_FAILURES, now) {
      var i, p := PlannedIsShown(log, cursor, now, l);
    } else {
      forall i: nat, p | StartOf(log, cursor) <= i < |log| ensures !Shows(log, i, p, l, now) {
        if Shows(log, i, p, l, now) { ShownIsPlanned(log, cursor, now, l, i, p); }
      }
    }
  }

  /** A first sync plans what the commits with a parent among the last hundred list, and so all of a branch
      that has no more. */
  lemma FirstSyncPlans(log: Log, now: string, l: Line)
    ensures l in Planned(log, None, NO_FAILURES, now) <==>
      exists i: nat, p :: 0 < i < |log| && |log| - i <= 100 && Shows(log, i, p, l, now)
  {
    PlannedIff(log, None, now, l);
  }

  /** Later cycles plan what the commits from the cursor on list. */
  lemma CursorPlans(log: Log, c: nat, now: string, l: Line)
    requires c <= |log|
    ensures l in Planned(log, Some(c), NO_FAILURES, now) <==>
      exists i: nat, p :: 0 < i < |log| && c <= i && Shows(log, i, p, l, now)
  {
    PlannedIff(log, Some(c), now, l);
  }

  // ----- runs of cycles -----

  /** One cycle: what it saw, what it ingested, and the index and cursor it left. */
  datatype Cycle = Cycle(log: Log, f: Failures, now: string, done: seq<Line>,
                         memories: Memories, cursor: Option<nat>)

  function Before(cs: seq<Cycle>): (Memories, Option<nat>) {
    if cs == [] then (map[], None) else (cs[|cs|-1].memories, cs[|cs|-1].cursor)
  }

  /** Cycles one after the other over a branch that only grows. */
  ghost predicate IsRun(cs: seq<Cycle>) {
    cs == [] ||
    var init, last := cs[..|cs|-1], cs[|cs|-1];
    && IsRun(init)
    && (init != [] ==> init[|init|-1].log <= last.log)
    && CycleOutcome(last.log, last.f, last.now, Before(init).0, Before(init).1,
                    last.done, last.memories, last.cursor)
  }

  /** The first commit the cycle that set the first cursor looked at. */
  function Base(cs: seq<Cycle>): nat {
    if cs == [] then 0
    else
      var init, last := cs[..|cs|-1], cs[|cs|-1];
      if Before(init).1.Some? || last.cursor.None? then Base(init)
      else StartOf(last.log, None)
  }

  ghost predicate CoversFrom(log: Log, b: nat, c: nat, m: Memories) {
    forall i, p, raw :: 0 < b <= i < c <= |log| && Adds(log, i, p, raw) && WellFormed(raw) ==>
      Absorbed(m, LineOf(raw))
  }

  /** Whenever the cursor stands at commit c, every well-formed line that a commit between the
      starting point and c added is in the index, with its tombstone applied. */
  lemma {:induction false} Coverage(cs: seq<Cycle>)
    requires IsRun(cs) && cs != []
    requires forall k :: 0 <= k < |cs| ==> (cs[k].f.fetch || Harmless(cs[k].f)) && FaithfulDiffs(cs[k].log)
    ensures var last := cs[|cs|-1]; last.cursor.Some? ==>
      && 0 < Base(cs) && last.cursor.value <= |last.log|
      && CoversFrom(last.log, Base(cs), last.cursor.value, last.memories)
  {
    var init, last := cs[..|cs|-1], cs[|cs|-1];
    var (m, c) := Before(init);
    if init != [] { Coverage(init); }
    if last.cursor.Some? {
      forall i, p, raw | Base(cs) <= i < last.cursor.value <= |last.log| && 0 < i
        && Adds(last.log, i, p, raw) && WellFormed(raw)
        ensures Absorbed(last.memories, LineOf(raw))
      {
        if c.Some? && i < c.value {
          assert Adds(init[|init|-1].log, i, p, raw);
          StaysAbsorbed(m, last.done, LineOf(raw));
        } else {
          AddedLineIsPlanned(last.log, c, last.f, last.now, i, p, raw);
          StaysAbsorbed(m, last.done, LineOf(raw));
        }
      }
    }
  }

  /** Hence every well-formed line in the branch as of the cursor was there at the starting point
      or is in the index. */
  lemma {:induction false} TipIsCovered(log: Log, b: nat, c: nat, m: Memories, p: Path, raw: Raw)
    requires 0 < b <= c <= |log| && CoversFrom(log, b, c, m)
    requires IsJsonl(p) && WellFormed(raw) && Holds(log[c-1].tree, p, raw)
    ensures Holds(log[b-1].tree, p, raw) || Absorbed(m, LineOf(raw))
    decreases c
  {
    if b < c {
      if Holds(log[c-2].tree, p, raw) {
        TipIsCovered(log, b, c - 1, m, p, raw);
      } else {
        assert Adds(log, c - 1, p, raw);
      }
    }
  }

  // ----- interruptions and failures -----

  lemma {:induction false} ConcatOfPrefix(xs: seq<seq<Line>>, ys: seq<seq<Line>>)
    requires xs <= ys
    ensures Concat(xs) <= Concat(ys)
  {
    assert ys[..|xs|] == xs;
    ConcatPrefix(ys, |xs|);
  }

  lemma SameCommitLines(log: Log, later: Log, i: nat, now: string)
    requires i < |log| && log <= later
    ensures CommitLines(log, i, NO_FAILURES, now) == CommitLines(later, i, NO_FAILURES, now)
  {
    var files := FilesIn(log, i, NO_FAILURES);
    assert files == FilesIn(later, i, NO_FAILURES);
    var before, after := PerFile(log, i, files, NO_FAILURES, now), PerFile(later, i, files, NO_FAILURES, now);
    assert forall k :: 0 <= k < |files| ==> before[k] == after[k];
    assert before == after;
  }

  /** What was planned is still planned first when the branch has grown. */
  lemma PlannedGrows(log: Log, later: Log, c: nat, now: string)
    requires c <= |log| && log <= later
    ensures Planned(log, Some(c), NO_FAILURES, now) <= Planned(later, Some(c), NO_FAILURES, now)
  {
    var before, after := PerCommit(log, c, NO_FAILURES, now), PerCommit(later, c, NO_FAILURES, now);
    forall k | 0 <= k < |before| ensures before[k] == after[k] { SameCommitLines(log, later, c + k, now); }
    ConcatOfPrefix(before, after);
  }

  /** A cycle that was stopped or threw anywhere leaves the cursor; the next complete one, over a branch
      that may have grown meanwhile, reaches the table an uninterrupted cycle over that branch would
      have built. */
  lemma StopAndRerun(log: Log, later: Log, now: string, m: Memories, c: Option<nat>, done: seq<Line>, m1: Memories,
                     again: seq<Line>, m2: Memories)
    requires log <= later && (if c.Some? then c.value <= |log| else later == log)
    requires HasWork(later, c, NO_FAILURES)
    requires CycleOutcome(log, NO_FAILURES, now, m, c, done, m1, c)
    requires CycleOutcome(later, NO_FAILURES, now, m1, c, again, m2, Some(|later|))
    ensures CycleOutcome(later, NO_FAILURES, now, m, c, Planned(later, c, NO_FAILURES, now), m2, Some(|later|))
  {
    if c.Some? { PlannedGrows(log, later, c.value, now); }
    PrefixIsHarmless(m, done, Planned(later, c, NO_FAILURES, now));
  }

  /** A failed `rev-list` moves the cursor to the tip without ingesting anything, and no later
      cycle looks at those commits again. */
  lemma FailedRevListSkips(log: Log, f: Failures, now: string, m: Memories, c: Option<nat>,
                           done: seq<Line>, m1: Memories, c1: Option<nat>, later: Log, l: Line)
    requires HasWork(log, c, f) && f.revList && log <= later
    requires CycleOutcome(log, f, now, m, c, done, m1, c1)
    ensures m1 == m && c1 == Some(|log|)
    ensures l in Planned(later, c1, NO_FAILURES, now) ==>
      exists i: nat, p :: |log| <= i < |later| && Shows(later, i, p, l, now)
  {
    PlannedIff(later, c1, now, l);
  }

  // ----- exactly which failures matter -----

  const HELLO_RAW := Raw(Text("a"), Text("2026-01-01"), Text("ann"), Text("memory"), Text("hello"), Null)

  /** An uninterrupted cycle moves its cursor to the tip without having everything added on the way. */
  ghost predicate Misses(f: Failures, log: Log, now: string, m: Memories, c: Option<nat>) {
    && FaithfulDiffs(log) && HasWork(log, c, f)
    && !CoversFrom(log, StartOf(log, c), |log|, IngestAll(m, Planned(log, c, f, now)))
  }

  /** A branch whose commit i adds one line to file p, all others nothing. */
  function OneLineAt(i: nat, p: Path): Log {
    seq(i, _ => GitCommit(map[], [])) + [GitCommit(map[p := [Some(HELLO_RAW)]], [p])]
  }

  lemma NothingShown(log: Log, i: nat, p: Path, f: Failures, now: string)
    requires i < |log| && log[i].changed == [p] && IsJsonl(p)
    requires i in f.diffs || (i, p) in f.shows
    ensures CommitLines(log, i, f, now) == []
  {
    var files := FilesIn(log, i, f);
    if files == [] {
      assert PerFile(log, i, files, f, now) == [];
    } else {
      assert JsonlOnly([p]) == JsonlOnly([]) + [p];
      assert PerFile(log, i, files, f, now) == [[]] && Concat([[]]) == Concat([]) + [];
    }
  }

  lemma NothingPlanned(f: Failures, now: string, i: nat, p: Path)
    requires IsJsonl(p) && (f.revList || i in f.diffs || (i, p) in f.shows)
    ensures Planned(OneLineAt(i, p), Some(i), f, now) == []
  {
    var log := OneLineAt(i, p);
    if !f.revList {
      NothingShown(log, i, p, f, now);
      assert PerCommit(log, i, f, now) == [[]] && Concat([[]]) == Concat([]) + [];
    }
  }

  /** A cycle that cannot see that file misses the line. */
  lemma HiddenLineIsMissed(f: Failures, now: string, i: nat, p: Path)
    requires !f.fetch && 0 < i && IsJsonl(p)
    requires f.revList || i in f.diffs || (i, p) in f.shows
    ensures Misses(f, OneLineAt(i, p), now, map[], Some(i))
  {
    var log := OneLineAt(i, p);
    NothingPlanned(f, now, i, p);
    assert log[i].tree == map[p := [Some(HELLO_RAW)]] && log[i-1].tree == map[];
    assert Adds(log, i, p, HELLO_RAW) && !Absorbed(map[], LineOf(HELLO_RAW));
  }

  lemma CycleCovers(f: Failures, log: Log, now: string, m: Memories, c: Option<nat>)
    requires !f.fetch && Harmless(f)
    ensures !Misses(f, log, now, m, c)
  {
    if FaithfulDiffs(log) && HasWork(log, c, f) {
      var done := Planned(log, c, f, now);
      forall i, p, raw | 0 < StartOf(log, c) <= i < |log| && Adds(log, i, p, raw) && WellFormed(raw)
        ensures Absorbed(IngestAll(m, done), LineOf(raw))
      {
        AddedLineIsPlanned(log, c, f, now, i, p, raw);
        StaysAbsorbed(m, done, LineOf(raw));
      }
    }
  }

  /** No cycle can miss a line exactly when the fetch fails, which leaves the cursor, or no read that
      matters does. */
  lemma NothingMissedIff(f: Failures)
    ensures (f.fetch || Harmless(f)) <==>
      forall log: Log, now: string, m: Memories, c: Option<nat> :: !Misses(f, log, now, m, c)
  {
    if f.fetch {
    } else if Harmless(f) {
      forall log: Log, now: string, m: Memories, c: Option<nat> ensures !Misses(f, log, now, m, c) {
        CycleCovers(f, log, now, m, c);
      }
    } else if f.revList {
      assert "a.jsonl"[|"a.jsonl"|-6..] == ".jsonl";
      HiddenLineIsMissed(f, "", 1, "a.jsonl");
    } else if i: nat :| i in f.diffs && i != 0 {
      assert "a.jsonl"[|"a.jsonl"|-6..] == ".jsonl";
      HiddenLineIsMissed(f, "", i, "a.jsonl");
    } else {
      var s :| s in f.shows && s.0 != 0 && IsJsonl(s.1);
      HiddenLineIsMissed(f, "", s.0, s.1);
    }
  }

  /** A first sync of at most a hundred commits, run to its end, leaves every well-formed line added after
      the root in the index; on a longer branch, every line the last hundred commits added. */
  lemma FirstSyncCovers(log: Log, f: Failures, now: string, m: Memories, i: nat, p: Path, raw: Raw)
    requires FaithfulDiffs(log) && !f.fetch && Harmless(f)
    requires 0 < i < |log| && |log| - i <= 100 && Adds(log, i, p, raw) && WellFormed(raw)
    ensures Absorbed(IngestAll(m, Planned(log, None, f, now)), LineOf(raw))
  {
    AddedLineIsPlanned(log, None, f, now, i, p, raw);
    StaysAbsorbed(m, Planned(log, None, f, now), LineOf(raw));
  }

  /** The loop itself, neither stopped nor thrown out of, leaves coverage exactly as that says; so
      it covers everything added when no read that matters fails. */
  method CycleToTheEnd(loop: Loop, log: Log, f: Failures, now: string)
    requires !loop.stopped && HasWork(log, loop.cursor, f) && FaithfulDiffs(log)
    requires loop.cursor.Some? ==> loop.cursor.value <= |log|
    modifies loop
    ensures loop.cursor == Some(|log|)
    ensures CoversFrom(log, StartOf(log, old(loop.cursor)), |log|, loop.memories)
      <==> !Misses(f, log, now, old(loop.memories), old(loop.cursor))
    ensures Harmless(f) ==> CoversFrom(log, StartOf(log, old(loop.cursor)), |log|, loop.memories)
  {
    if Harmless(f) { CycleCovers(f, log, now, loop.memories, loop.cursor); }
    var ingested, done := loop.FetchAndIngest(log, f, now, CycleWork(log, loop.cursor, f, now));
  }
}
