/**
 One replica of a cortex: its index database (L2 and the outbox), its clone's two refs, and
 the one drain the global mutex lets run.  Every function below is one atomic step of the
 daemon; anything may happen between two steps, including a crash.

 A ref is absent until something creates it.  `drain` is the only volatile part.
 `written` (the lines committed to the outbox, in order), `seen`, `skipped` and `dropped` record
 history for the theorems and are never read by a step.
 */
module Replica {
  import opened Wrappers
  import opened L1Log
  import opened Ingest

  const MAX_PUSH_ATTEMPTS := 3

  datatype OutboxRow = OutboxRow(rowId: nat, line: Line)

  /** Where a running drain stands. */
  datatype Phase = Preflight | Fetching | Resetting | Appending | Pushing | Removing

  datatype Drain =
    | Idle
    | Running(rows: seq<OutboxRow>, skipPush: bool, startWithReset: bool, attempt: nat, phase: Phase)

  datatype Replica = Replica(
    memories: Memories,
    outbox: seq<OutboxRow>,
    nextRow: nat,
    local: Option<History>,
    tracking: Option<History>,
    drain: Drain,
    seen: set<Line>,
    written: seq<Line>,
    skipped: set<Line>,
    dropped: set<Line>)

  /** What replicas share: the branch on origin, and every line any of them ever wrote. */
  datatype Shared = Shared(origin: Option<History>, ever: set<Line>)

  /** How `git push` came back.  `Landed` and `LandedUnacknowledged` need a fast-forward; without
      one the server rejects them. */
  datatype PushOutcome = Landed | LandedUnacknowledged | Rejected | Failed

  datatype Action =
    | Sync(id: Id, payload: Payload)
    | OfflineWrite(id: Id, payload: Payload)
    | Index(failing: set<nat>)
    | Delete(targets: seq<Id>)
    | DrainStart(skipPush: bool)
    | PreflightFetch(fetched: bool, threshold: nat)
    | Fetch(fetched: bool)
    | Reset
    | Append(stamp: nat)
    | Push(outcome: PushOutcome)
    | Remove(ok: bool)
    | Abort
    | PullFetch
    | Checkout
    | Pull(lines: seq<Line>)

  // ----- refs -----

  predicate IsPrefixOf(a: Option<History>, b: Option<History>) {
    a.None? || (b.Some? && a.value <= b.value)
  }

  function CommonPrefix(a: History, b: History): nat {
    if a == [] || b == [] || a[0] != b[0] then 0 else 1 + CommonPrefix(a[1..], b[1..])
  }

  /** `rev-list --count local..tracking`; it fails unless both refs exist. */
  function Behind(local: Option<History>, tracking: Option<History>): Option<nat>
    ensures Behind(local, tracking).Some? ==> tracking.Some? && Behind(local, tracking).value <= |tracking.value|
  {
    if local.None? || tracking.None? then None
    else
      CommonPrefixBound(local.value, tracking.value);
      Some(|tracking.value| - CommonPrefix(local.value, tracking.value))
  }

  /** Two histories that share no first commit. */
  predicate Apart(a: History, b: History) {
    a == [] || b == [] || a[0] != b[0]
  }

  /** The tracking ref has n commits beyond the history the two refs share. */
  ghost predicate AheadBy(local: Option<History>, tracking: Option<History>, n: nat) {
    exists h: History, a: History, b: History ::
      local == Some(h + a) && tracking == Some(h + b) && Apart(a, b) && |b| == n
  }

  lemma {:induction false} CommonPrefixOf(h: History, a: History, b: History)
    requires Apart(a, b)
    ensures CommonPrefix(h + a, h + b) == |h|
  {
    if h == [] {
      assert h + a == a && h + b == b;
    } else {
      var x, y := h + a, h + b;
      assert x[1..] == h[1..] + a && y[1..] == h[1..] + b && x[0] == y[0] == h[0];
      CommonPrefixOf(h[1..], a, b);
    }
  }

  /** Where the common history of two branches ends. */
  lemma Fork(x: History, y: History) returns (h: History, a: History, b: History)
    ensures x == h + a && y == h + b && Apart(a, b)
  {
    if Apart(x, y) {
      h, a, b := [], x, y;
    } else {
      h, a, b := Fork(x[1..], y[1..]);
      h := [x[0]] + h;
    }
  }

  /** Being behind counts the commits of the tracking ref beyond the common history, and is known
      exactly when both refs exist. */
  lemma BehindCounts(h: History, a: History, b: History)
    requires Apart(a, b)
    ensures Behind(Some(h + a), Some(h + b)) == Some(|b|)
  {
    CommonPrefixOf(h, a, b);
  }

  lemma BehindIff(local: Option<History>, tracking: Option<History>, n: nat)
    ensures Behind(local, tracking) == Some(n) <==> AheadBy(local, tracking, n)
    ensures Behind(local, tracking).None? <==> local.None? || tracking.None?
  {
    if local.Some? && tracking.Some? {
      var h, a, b := Fork(local.value, tracking.value);
      BehindCounts(h, a, b);
      if AheadBy(local, tracking, n) {
        var h', a', b' :| local == Some(h' + a') && tracking == Some(h' + b') && Apart(a', b') && |b'| == n;
        BehindCounts(h', a', b');
      }
    }
  }

  lemma CommonPrefixBound(a: History, b: History)
    ensures CommonPrefix(a, b) <= |a| && CommonPrefix(a, b) <= |b|
  {
    if a != [] && b != [] && a[0] == b[0] { CommonPrefixBound(a[1..], b[1..]); }
  }

  /** The tip to build on; the local ref is fast-forwarded when the remote is strictly ahead. */
  function ResolveTip(local: Option<History>, tracking: Option<History>): Option<History> {
    if local.None? then tracking
    else if tracking.None? || tracking == local then local
    else if local.value <= tracking.value then tracking
    else local
  }

  // ----- rows -----

  function RowLines(rows: seq<OutboxRow>): set<Line> {
    set r | r in rows :: r.line
  }

  function RowIds(rows: seq<OutboxRow>): set<nat> {
    set r | r in rows :: r.rowId
  }

  function LinesOfRows(rows: seq<OutboxRow>): seq<Line> {
    if rows == [] then [] else LinesOfRows(rows[..|rows|-1]) + [rows[|rows|-1].line]
  }

  /** `DELETE FROM l1_outbox WHERE id IN (...)`. */
  function Without(rows: seq<OutboxRow>, ids: set<nat>): seq<OutboxRow> {
    if rows == [] then []
    else if rows[0].rowId in ids then Without(rows[1..], ids)
    else [rows[0]] + Without(rows[1..], ids)
  }

  function Enqueue(r: Replica, l: Line): Replica {
    r.(outbox := r.outbox + [OutboxRow(r.nextRow, l)], nextRow := r.nextRow + 1,
       written := r.written + [l])
  }

  // ----- writers -----

  /** The guards every writer applies: a fresh id and non-empty content. */
  predicate Writable(sh: Shared, id: Id, payload: Payload) {
    payload.content != "" && id !in Ids(sh.ever)
  }

  function DoSync(sh: Shared, r: Replica, id: Id, payload: Payload): (Shared, Replica) {
    var l := Line(id, payload, false);
    if Writable(sh, id, payload) then
      (sh.(ever := sh.ever + {l}),
       Enqueue(r.(memories := IngestLine(r.memories, l), seen := r.seen + {l}), l))
    else (sh, r)
  }

  function DoOfflineWrite(sh: Shared, r: Replica, id: Id, payload: Payload): (Shared, Replica) {
    var l := Line(id, payload, false);
    if Writable(sh, id, payload) then (sh.(ever := sh.ever + {l}), Enqueue(r, l)) else (sh, r)
  }

  /** One target of a delete: the row is tombstoned and its tombstone line enqueued. */
  function DeleteOne(sh: Shared, r: Replica, id: Id): (Shared, Replica) {
    if id in r.memories && !r.memories[id].deleted then
      var t := Line(id, r.memories[id].payload, true);
      (sh.(ever := sh.ever + {t}),
       Enqueue(r.(memories := r.memories[id := r.memories[id].(deleted := true)],
                  seen := r.seen + {t}), t))
    else (sh, r)
  }

  function DoDelete(sh: Shared, r: Replica, targets: seq<Id>): (Shared, Replica) {
    if targets == [] then (sh, r)
    else
      var (sh1, r1) := DoDelete(sh, r, targets[..|targets|-1]);
      DeleteOne(sh1, r1, targets[|targets|-1])
  }

  /** The outbox lines that boot-time indexing inserts: live, and not failing to embed. */
  function Indexable(rows: seq<OutboxRow>, failing: set<nat>): seq<Line> {
    if rows == [] then []
    else
      var last := rows[|rows|-1];
      Indexable(rows[..|rows|-1], failing) +
      (if last.line.tomb || last.rowId in failing then [] else [last.line])
  }

  function Absorb(r: Replica, ls: seq<Line>): Replica {
    r.(memories := IngestAll(r.memories, ls), seen := r.seen + SetOf(ls))
  }

  // ----- the drain -----

  function DoDrainStart(r: Replica, skipPush: bool): Replica {
    if r.drain.Idle? && r.outbox != []
    then r.(drain := Running(r.outbox, skipPush, false, 1, Preflight))
    else r
  }

  function DoPreflight(sh: Shared, r: Replica, fetched: bool, threshold: nat): Replica
    requires r.drain.Running?
  {
    var tracking := if fetched then sh.origin else r.tracking;
    var behind := if fetched then Behind(r.local, tracking) else None;
    var far := behind.Some? && threshold > 0 && behind.value >= threshold;
    r.(tracking := tracking, drain := r.drain.(startWithReset := far, phase := Fetching))
  }

  predicate Forced(d: Drain)
    requires d.Running?
  {
    d.startWithReset || d.attempt > 1
  }

  function DoFetch(sh: Shared, r: Replica, fetched: bool): Replica
    requires r.drain.Running?
  {
    r.(tracking := if fetched then sh.origin else r.tracking,
       drain := r.drain.(phase := if Forced(r.drain) then Resetting else Appending))
  }

  /** The local ref is thrown away for the remote tip, when there is one. */
  function DoReset(r: Replica): Replica
    requires r.drain.Running?
  {
    var d := r.drain.(phase := Appending);
    if r.tracking.None? then r.(drain := d)
    else r.(local := r.tracking, drain := d,
            dropped := r.dropped + (RefLines(r.local) - RefLines(r.tracking)))
  }

  /** Commit the rows on the resolved tip.  The ref is advanced by compare-and-swap on that tip,
      so it fails when the tip came from the remote alone and no local ref exists. */
  function DoAppend(r: Replica, stamp: nat): Replica
    requires r.drain.Running?
  {
    var tip := ResolveTip(r.local, r.tracking);
    if r.local.None? && tip.Some? then r.(drain := Idle)
    else
      r.(local := Some(HistoryOf(tip) + [Commit(stamp, LinesOfRows(r.drain.rows))]),
         drain := r.drain.(phase := if r.drain.skipPush then Removing else Pushing))
  }

  function Rejection(r: Replica): Replica
    requires r.drain.Running?
  {
    if r.drain.attempt < MAX_PUSH_ATTEMPTS
    then r.(drain := r.drain.(attempt := r.drain.attempt + 1, phase := Fetching))
    else r.(drain := Idle)
  }

  function DoPush(sh: Shared, r: Replica, outcome: PushOutcome): (Shared, Replica)
    requires r.drain.Running?
  {
    var ff := r.local.Some? && IsPrefixOf(sh.origin, r.local);
    match outcome
    case Landed =>
      if ff then (sh.(origin := r.local),
                  r.(tracking := r.local, drain := r.drain.(phase := Removing)))
      else (sh, Rejection(r))
    case LandedUnacknowledged =>
      if ff then (sh.(origin := r.local), r.(drain := Idle)) else (sh, Rejection(r))
    case Rejected => (sh, Rejection(r))
    case Failed => (sh, r.(drain := Idle))
  }

  function DoRemove(r: Replica, ok: bool): Replica
    requires r.drain.Running?
  {
    if !ok then r.(drain := Idle)
    else
      r.(outbox := Without(r.outbox, RowIds(r.drain.rows)), drain := Idle,
         skipped := if r.drain.skipPush then r.skipped + RowLines(r.drain.rows) else r.skipped)
  }

  // ----- all steps -----

  predicate At(r: Replica, p: Phase) {
    r.drain.Running? && r.drain.phase == p
  }

  /** One step; a step that is not enabled changes nothing. */
  function Act(sh: Shared, r: Replica, a: Action): (Shared, Replica) {
    match a
    case Sync(id, payload) => DoSync(sh, r, id, payload)
    case OfflineWrite(id, payload) => DoOfflineWrite(sh, r, id, payload)
    case Index(failing) => (sh, Absorb(r, Indexable(r.outbox, failing)))
    case Delete(targets) => DoDelete(sh, r, targets)
    case DrainStart(skipPush) => (sh, DoDrainStart(r, skipPush))
    case PreflightFetch(fetched, threshold) =>
      (sh, if At(r, Preflight) then DoPreflight(sh, r, fetched, threshold) else r)
    case Fetch(fetched) => (sh, if At(r, Fetching) then DoFetch(sh, r, fetched) else r)
    case Reset => (sh, if At(r, Resetting) then DoReset(r) else r)
    case Append(stamp) => (sh, if At(r, Appending) then DoAppend(r, stamp) else r)
    case Push(outcome) => if At(r, Pushing) then DoPush(sh, r, outcome) else (sh, r)
    case Remove(ok) => (sh, if At(r, Removing) then DoRemove(r, ok) else r)
    case Abort => (sh, r.(drain := Idle))
    case PullFetch => (sh, r.(tracking := sh.origin))
    case Checkout => (sh, r.(local := ResolveTip(r.local, r.tracking)))
    case Pull(ls) => (sh, if SetOf(ls) <= RefLines(r.tracking) then Absorb(r, ls) else r)
  }
}
