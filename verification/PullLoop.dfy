/**
 The pull loop of one cortex: read the commits between a stored cursor and origin's tip, ingest
 every line of every JSONL file they touch, then store the new cursor.

 Origin's branch is linear here and only grows; a commit is known by its position.  Any git read
 can fail, and the cycle can be stopped or can throw at any point.
 */
module PullLoop {
  import opened Wrappers
  import opened L1Log
  import opened Ingest
  import opened Readers

  const FIRST_SYNC_MAX_COMMITS: nat := 100

  type Path = string

  /** A file's lines; `None` where a line is blank or not a JSON object. */
  type File = seq<Option<Raw>>

  type Tree = map<Path, File>

  /** `changed` is what `diff-tree` lists for the commit. */
  datatype GitCommit = GitCommit(tree: Tree, changed: seq<Path>)

  type Log = seq<GitCommit>

  /** Which reads fail during a cycle. */
  datatype Failures = Failures(fetch: bool, revList: bool, diffs: set<nat>, shows: set<(nat, Path)>)

  const NO_FAILURES := Failures(false, false, {}, {})

  // ----- what a cycle ingests -----

  predicate IsJsonl(p: Path) {
    |p| >= 6 && p[|p|-6..] == ".jsonl"
  }

  function JsonlOnly(ps: seq<Path>): seq<Path> {
    if ps == [] then []
    else JsonlOnly(ps[..|ps|-1]) + if IsJsonl(ps[|ps|-1]) then [ps[|ps|-1]] else []
  }

  /** `diff-tree` prints nothing for a commit without a parent. */
  function FilesIn(log: Log, i: nat, f: Failures): seq<Path>
    requires i < |log|
  {
    if i in f.diffs || i == 0 then [] else JsonlOnly(log[i].changed)
  }

  function ParseFile(file: File, now: string): seq<Line> {
    if file == [] then []
    else
      var last := file[|file|-1];
      var line := if last.Some? then PullRead(last.value, now) else None;
      ParseFile(file[..|file|-1], now) + if line.Some? then [line.value] else []
  }

  /** `git show` of one file; a file the commit removed has none. */
  function Shown(log: Log, i: nat, p: Path, f: Failures): Option<File>
    requires i < |log|
  {
    if (i, p) in f.shows || p !in log[i].tree then None else Some(log[i].tree[p])
  }

  function FileLines(log: Log, i: nat, p: Path, f: Failures, now: string): seq<Line>
    requires i < |log|
  {
    match Shown(log, i, p, f)
    case None => []
    case Some(file) => ParseFile(file, now)
  }

  /** The lines of each of a commit's files. */
  function PerFile(log: Log, i: nat, ps: seq<Path>, f: Failures, now: string): seq<seq<Line>>
    requires i < |log|
  {
    seq(|ps|, k requires 0 <= k < |ps| => FileLines(log, i, ps[k], f, now))
  }

  function CommitLines(log: Log, i: nat, f: Failures, now: string): seq<Line>
    requires i < |log|
  {
    Concat(PerFile(log, i, FilesIn(log, i, f), f, now))
  }

  /** The lines of each commit from a on. */
  function PerCommit(log: Log, a: nat, f: Failures, now: string): seq<seq<Line>>
    requires a <= |log|
  {
    seq(|log| - a, k requires 0 <= k < |log| - a => CommitLines(log, a + k, f, now))
  }

  /** The first commit the cycle looks at. */
  function FirstCommit(log: Log, cursor: Option<nat>): (from: nat)
    ensures from <= |log|
  {
    match cursor
    case Some(c) => if c <= |log| then c else |log|
    case None => if |log| > FIRST_SYNC_MAX_COMMITS then |log| - FIRST_SYNC_MAX_COMMITS else 0
  }

  /** Everything a cycle that is not interrupted ingests, in order. */
  function Planned(log: Log, cursor: Option<nat>, f: Failures, now: string): seq<Line> {
    if f.fetch || f.revList then [] else Concat(PerCommit(log, FirstCommit(log, cursor), f, now))
  }

  /** A branch that exists, ahead of the cursor, and reachable. */
  predicate HasWork(log: Log, cursor: Option<nat>, f: Failures) {
    !f.fetch && log != [] && cursor != Some(|log|)
  }

  // ----- how much a cycle has to get through -----

  /** One loop head for each part, and what the part itself takes. */
  function Work(parts: seq<nat>): nat {
    if parts == [] then 0 else Work(parts[..|parts|-1]) + 1 + parts[|parts|-1]
  }

  function Sizes(parts: seq<seq<Line>>): (sizes: seq<nat>)
    ensures |sizes| == |parts|
  {
    seq(|parts|, k requires 0 <= k < |parts| => |parts[k]|)
  }

  function CommitWork(log: Log, i: nat, f: Failures, now: string): nat
    requires i < |log|
  {
    Work(Sizes(PerFile(log, i, FilesIn(log, i, f), f, now)))
  }

  /** What each commit from a on takes. */
  function CommitsWork(log: Log, a: nat, f: Failures, now: string): (works: seq<nat>)
    requires a <= |log|
    ensures |works| == |log| - a
  {
    seq<nat>(|log| - a, k requires 0 <= k < |log| - a => CommitWork(log, a + k, f, now))
  }

  function CycleWork(log: Log, cursor: Option<nat>, f: Failures, now: string): nat {
    if f.fetch || f.revList then 0 else Work(CommitsWork(log, FirstCommit(log, cursor), f, now))
  }

  /** A cycle ingests a front part of what is planned, all of it when the cursor moves; a failed
      `rev-list` moves the cursor. */
  ghost predicate CycleOutcome(log: Log, f: Failures, now: string, m: Memories, c: Option<nat>,
                               done: seq<Line>, m': Memories, c': Option<nat>)
  {
    && m' == IngestAll(m, done)
    && (if HasWork(log, c, f) then done <= Planned(log, c, f, now) else done == [] && c' == c)
    && (c' == c || (c' == Some(|log|) && done == Planned(log, c, f, now)))
    && (HasWork(log, c, f) && f.revList ==> c' == Some(|log|))
  }

  class Loop {
    var memories: Memories
    var cursor: Option<nat>
    var stopped: bool

    constructor (m: Memories, c: Option<nat>)
      ensures memories == m && cursor == c && !stopped
    {
      memories, cursor, stopped := m, c, false;
    }

    /** Insert once; afterwards only a tombstone changes the row. */
    method IngestEntry(l: Line)
      modifies this`memories
      ensures memories == IngestLine(old(memories), l)
    {
      if l.payload.content == "" { return; }
      if l.id in memories {
        if l.tomb && !memories[l.id].deleted {
          memories := memories[l.id := memories[l.id].(deleted := true)];
        }
        return;
      }
      memories := memories[l.id := Row(l.payload, l.tomb)];
    }

    /** The lines of one file.  When `ticks` run out, the next entry throws. */
    method IngestFile(file: File, now: string, ticks: nat)
      returns (ingested: nat, left: nat, threw: bool, ghost done: seq<Line>)
      modifies this`memories
      ensures done <= ParseFile(file, now) && ingested == |done|
      ensures memories == IngestAll(old(memories), done)
      ensures !threw ==> done == ParseFile(file, now) && left == ticks - |done|
      ensures ticks >= |ParseFile(file, now)| ==> !threw
    {
      ingested, left, threw, done := 0, ticks, false, [];
      for k := 0 to |file|
        invariant !threw && ingested == |done|
        invariant done == ParseFile(file[..k], now) && left == ticks - |done|
        invariant memories == IngestAll(old(memories), done)
      {
        ParsePrefix(file, k, now);
        assert file[..k+1][..k] == file[..k];
        var entry := if file[k].Some? then PullRead(file[k].value, now) else None;
        if entry.Some? {
          if left == 0 {
            ParsePrefix(file, k + 1, now);
            return ingested, 0, true, done;
          }
          left := left - 1;
          IngestEntry(entry.value);
          assert (done + [entry.value])[..|done|] == done;
          ingested, done := ingested + 1, done + [entry.value];
        }
      }
      assert file[..|file|] == file;
    }

    /** One file of a commit, when `git show` gives it. */
    method ShowAndIngest(log: Log, i: nat, p: Path, f: Failures, now: string, ticks: nat)
      returns (ingested: nat, left: nat, threw: bool, ghost done: seq<Line>)
      requires i < |log|
      modifies this`memories
      ensures done <= FileLines(log, i, p, f, now) && ingested == |done|
      ensures memories == IngestAll(old(memories), done)
      ensures !threw ==> done == FileLines(log, i, p, f, now) && left == ticks - |done|
      ensures ticks >= |FileLines(log, i, p, f, now)| ==> !threw
    {
      ingested, left, threw, done := 0, ticks, false, [];
      var content := Shown(log, i, p, f);
      if content.Some? {
        ingested, left, threw, done := IngestFile(content.value, now, ticks);
      }
    }

    /** File k of a commit, unless the loop was stopped. */
    method IngestNextFile(log: Log, i: nat, files: seq<Path>, k: nat, f: Failures, now: string, left0: nat,
                          ghost m: Memories, ghost parts: seq<seq<Line>>, ghost before: seq<Line>)
      returns (ingested: nat, left: nat, interrupted: bool, ghost done: seq<Line>)
      requires i < |log| && k < |files| && parts == PerFile(log, i, files, f, now)
      requires before == Concat(parts[..k]) && memories == IngestAll(m, before)
      modifies this`memories, this`stopped
      ensures done <= Concat(parts) && |before| + ingested == |done| && memories == IngestAll(m, done)
      ensures !interrupted ==> stopped == old(stopped) && done == Concat(parts[..k+1])
      ensures !interrupted ==> left == left0 - 1 - |parts[k]|
      ensures !old(stopped) && left0 >= 1 + |parts[k]| ==> !interrupted
      ensures left0 == 0 || old(stopped) ==> interrupted && stopped && done == before
    {
      ghost var part := [];
      ingested, left, interrupted := 0, left0, true;
      if left0 == 0 || stopped {
        stopped := true;
      } else {
        ingested, left, interrupted, part := ShowAndIngest(log, i, files[k], f, now, left0 - 1);
      }
      NextPart(m, parts, k, part);
      done := before + part;
    }

    /** The files of one commit, up to a stop or a throw. */
    method IngestCommit(log: Log, i: nat, f: Failures, now: string, ticks: nat)
      returns (ingested: nat, left: nat, interrupted: bool, ghost done: seq<Line>)
      requires i < |log|
      modifies this`memories, this`stopped
      ensures done <= CommitLines(log, i, f, now) && ingested == |done|
      ensures memories == IngestAll(old(memories), done)
      ensures !interrupted ==> stopped == old(stopped) && done == CommitLines(log, i, f, now)
      ensures !interrupted ==> left == ticks - CommitWork(log, i, f, now)
      ensures !old(stopped) && ticks >= CommitWork(log, i, f, now) ==> !interrupted
    {
      ingested, left, interrupted, done := 0, ticks, false, [];
      var files, n := FilesIn(log, i, f), 0;
      ghost var parts := PerFile(log, i, files, f, now);
      ghost var sizes := Sizes(parts);
      for k := 0 to |files|
        invariant !interrupted && stopped == old(stopped) && ingested == |done|
        invariant left == ticks - Work(sizes[..k])
        invariant done == Concat(parts[..k])
        invariant memories == IngestAll(old(memories), done)
      {
        NextWork(sizes, k);
        n, left, interrupted, done := IngestNextFile(log, i, files, k, f, now, left, old(memories), parts, done);
        ingested := ingested + n;
        if interrupted { return; }
      }
      assert parts[..|files|] == parts && sizes[..|files|] == sizes;
    }

    /** Commit i, unless the loop was stopped. */
    method IngestUnlessStopped(log: Log, i: nat, f: Failures, now: string, left0: nat,
                               ghost whole: seq<Line>, ghost work: nat)
      returns (ingested: nat, left: nat, interrupted: bool, ghost done: seq<Line>)
      requires i < |log| && whole == CommitLines(log, i, f, now) && work == CommitWork(log, i, f, now)
      modifies this`memories, this`stopped
      ensures done <= whole && ingested == |done|
      ensures memories == IngestAll(old(memories), done)
      ensures !interrupted ==> stopped == old(stopped) && done == whole && left == left0 - 1 - work
      ensures !old(stopped) && left0 >= 1 + work ==> !interrupted
      ensures left0 == 0 || old(stopped) ==> interrupted && stopped && done == []
    {
      if left0 == 0 || stopped {
        stopped := true;
        return 0, left0, true, [];
      }
      ingested, left, interrupted, done := IngestCommit(log, i, f, now, left0 - 1);
    }

    /** All new commits, up to a stop or a throw. */
    method IngestCommits(log: Log, from: nat, f: Failures, now: string, ticks: nat,
                         ghost parts: seq<seq<Line>>, ghost works: seq<nat>)
      returns (ingested: nat, interrupted: bool, ghost done: seq<Line>)
      requires from <= |log| && parts == PerCommit(log, from, f, now) && works == CommitsWork(log, from, f, now)
      modifies this`memories, this`stopped
      ensures done <= Concat(parts) && ingested == |done|
      ensures memories == IngestAll(old(memories), done)
      ensures !interrupted ==> stopped == old(stopped) && done == Concat(parts)
      ensures !old(stopped) && ticks >= Work(works) ==> !interrupted
      ensures old(stopped) ==> stopped
    {
      ingested, interrupted, done := 0, false, [];
      var left, n := ticks, 0;
      for i := from to |log|
        invariant !interrupted && stopped == old(stopped) && ingested == |done|
        invariant left == ticks - Work(works[..i-from])
        invariant done == Concat(parts[..i-from])
        invariant memories == IngestAll(old(memories), done)
      {
        ghost var part;
        NextWork(works, i - from);
        n, left, interrupted, part := IngestUnlessStopped(log, i, f, now, left, parts[i-from], works[i-from]);
        NextPart(old(memories), parts, i - from, part);
        ingested, done := ingested + n, done + part;
        if interrupted { return; }
      }
      assert parts[..|log|-from] == parts && works[..|log|-from] == works;
    }

    /** One cycle.  `ticks` is how many entries and loop heads it gets through before it is stopped
        or throws.  The cursor moves when the cycle runs to its end, and only then. */
    method FetchAndIngest(log: Log, f: Failures, now: string, ticks: nat)
      returns (ingested: nat, ghost done: seq<Line>)
      requires cursor.Some? ==> cursor.value <= |log|
      modifies this
      ensures ingested == |done|
      ensures CycleOutcome(log, f, now, old(memories), old(cursor), done, memories, cursor)
      ensures stopped && !f.revList ==> cursor == old(cursor)
      ensures old(stopped) ==> stopped
      ensures HasWork(log, old(cursor), f) && !old(stopped) && ticks >= CycleWork(log, old(cursor), f, now) ==>
        cursor == Some(|log|) && done == Planned(log, old(cursor), f, now)
    {
      ingested, done := 0, [];
      if f.fetch || log == [] || cursor == Some(|log|) { return; }
      if f.revList {
        cursor := Some(|log|);
        return;
      }
      var interrupted;
      var from := FirstCommit(log, cursor);
      ingested, interrupted, done := IngestCommits(
        log, from, f, now, ticks, PerCommit(log, from, f, now), CommitsWork(log, from, f, now));
      if interrupted { return; }
      if !stopped { cursor := Some(|log|); }
    }
  }

  // ----- prefixes of what is planned -----

  lemma {:induction false} ParsePrefix(file: File, k: nat, now: string)
    requires k <= |file|
    ensures ParseFile(file[..k], now) <= ParseFile(file, now)
  {
    if k == |file| {
      assert file[..k] == file;
    } else {
      ParsePrefix(file[..|file|-1], k, now);
      assert file[..|file|-1][..k] == file[..k];
    }
  }

  lemma {:induction false} ConcatPrefix(parts: seq<seq<Line>>, k: nat)
    requires k <= |parts|
    ensures Concat(parts[..k]) <= Concat(parts)
  {
    if k == |parts| {
      assert parts[..k] == parts;
    } else {
      ConcatPrefix(parts[..|parts|-1], k);
      assert parts[..|parts|-1][..k] == parts[..k];
    }
  }

  lemma {:induction false} WorkPrefix(parts: seq<nat>, k: nat)
    requires k <= |parts|
    ensures Work(parts[..k]) <= Work(parts)
  {
    if k == |parts| {
      assert parts[..k] == parts;
    } else {
      WorkPrefix(parts[..|parts|-1], k);
      assert parts[..|parts|-1][..k] == parts[..k];
    }
  }

  lemma NextWork(parts: seq<nat>, k: nat)
    requires k < |parts|
    ensures Work(parts[..k]) + 1 + parts[k] == Work(parts[..k+1]) <= Work(parts)
  {
    assert parts[..k+1][..k] == parts[..k];
    WorkPrefix(parts, k + 1);
  }

  /** Ingesting part k, or its front, after the parts before it. */
  lemma NextPart(m: Memories, parts: seq<seq<Line>>, k: nat, part: seq<Line>)
    requires k < |parts| && part <= parts[k]
    ensures Concat(parts[..k]) + part <= Concat(parts)
    ensures part == parts[k] ==> Concat(parts[..k+1]) == Concat(parts[..k]) + part
    ensures IngestAll(IngestAll(m, Concat(parts[..k])), part) == IngestAll(m, Concat(parts[..k]) + part)
  {
    ConcatPrefix(parts, k + 1);
    assert parts[..k+1][..k] == parts[..k];
    IngestAllConcat(m, Concat(parts[..k]), part);
  }
}
