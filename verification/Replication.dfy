/**
 Runs of any number of replicas around one origin, as arbitrary interleavings of their steps:
 writers, drains that fail at any point, rejected or unacknowledged pushes, fetches, pulls of
 any lines in any order, and crashes.

 Main results: nothing committed to an outbox is lost, every lost line of a `skipPush` drain is
 accounted for, origin only ever grows, and replicas that have caught up hold the same table.
 */
module Replication {
  import opened Wrappers
  import opened L1Log
  import opened Ingest
  import opened Replica

  // ----- what every step keeps, for one replica -----

  ghost predicate RowsOrdered(r: Replica) {
    && (forall i, j :: 0 <= i < j < |r.outbox| ==> r.outbox[i].rowId < r.outbox[j].rowId)
    && (forall i :: 0 <= i < |r.outbox| ==> r.outbox[i].rowId < r.nextRow)
  }

  ghost predicate RefsKnown(sh: Shared, r: Replica) {
    && RefLines(r.local) <= sh.ever
    && IsPrefixOf(r.tracking, sh.origin)
  }

  ghost predicate IndexKnown(sh: Shared, r: Replica) {
    r.seen <= sh.ever && Explains(r.memories, r.seen)
  }

  /** Each line this replica wrote is queued, shared, or was skipped; each skipped line is
      shared, still in the local branch, or was dropped by a reset. */
  ghost predicate Accounted(sh: Shared, r: Replica) {
    && SetOf(r.written) <= sh.ever
    && RowLines(r.outbox) <= SetOf(r.written)
    && SetOf(r.written) <= RowLines(r.outbox) + RefLines(sh.origin) + r.skipped
    && r.skipped <= RefLines(sh.origin) + RefLines(r.local) + r.dropped
  }

  /** The drain's rows are still the front of the outbox, and they are in the local branch from
      the append on and on origin once a push has landed. */
  ghost predicate DrainSound(sh: Shared, r: Replica) {
    match r.drain
    case Idle => true
    case Running(rows, skipPush, _, attempt, phase) =>
      && rows != [] && rows <= r.outbox
      && 1 <= attempt <= MAX_PUSH_ATTEMPTS
      && (phase in {Pushing, Removing} ==> r.local.Some? && RowLines(rows) <= RefLines(r.local))
      && (phase == Pushing ==> !skipPush)
      && (phase == Removing && !skipPush ==> RowLines(rows) <= RefLines(sh.origin))
  }

  ghost predicate ReplicaInv(sh: Shared, r: Replica) {
    && RowsOrdered(r) && RefsKnown(sh, r) && IndexKnown(sh, r) && Accounted(sh, r)
    && DrainSound(sh, r)
  }

  ghost predicate SharedInv(sh: Shared) {
    && RefLines(sh.origin) <= sh.ever
    && Agree(sh.ever) && Readable(sh.ever)
  }

  /** The environment only ever adds: origin is extended and lines are added. */
  ghost predicate Grows(sh: Shared, sh': Shared) {
    && IsPrefixOf(sh.origin, sh'.origin)
    && sh.ever <= sh'.ever
  }

  // ----- small facts -----

  lemma RefLinesMonotone(a: Option<History>, b: Option<History>)
    requires IsPrefixOf(a, b)
    ensures RefLines(a) <= RefLines(b)
  {
    if a.Some? { LinesMonotone(a.value, b.value); }
  }

  lemma OthersKeepInv(sh: Shared, sh': Shared, r: Replica)
    requires ReplicaInv(sh, r) && Grows(sh, sh')
    ensures ReplicaInv(sh', r)
  {
    RefLinesMonotone(sh.origin, sh'.origin);
  }

  lemma {:induction false} RowLinesAre(rows: seq<OutboxRow>)
    ensures SetOf(LinesOfRows(rows)) == RowLines(rows)
  {
    if rows != [] {
      var init, last := rows[..|rows|-1], rows[|rows|-1];
      RowLinesAre(init);
      assert rows == init + [last];
      assert RowLines(rows) == RowLines(init) + {last.line};
    }
  }

  /** Deleting the ids of the front rows leaves exactly the rest, so rows enqueued during a
      drain survive it. */
  lemma {:induction false} RemovalIsSuffix(rows: seq<OutboxRow>, n: nat)
    requires n <= |rows|
    requires forall i, j :: 0 <= i < j < |rows| ==> rows[i].rowId < rows[j].rowId
    ensures Without(rows, RowIds(rows[..n])) == rows[n..]
  {
    WithoutDropsFront(rows, RowIds(rows[..n]), n);
  }

  lemma {:induction false} WithoutDropsFront(rows: seq<OutboxRow>, ids: set<nat>, n: nat)
    requires n <= |rows|
    requires forall i :: 0 <= i < n ==> rows[i].rowId in ids
    requires forall i :: n <= i < |rows| ==> rows[i].rowId !in ids
    ensures Without(rows, ids) == rows[n..]
  {
    if rows == [] {
    } else if n > 0 {
      WithoutDropsFront(rows[1..], ids, n - 1);
      assert rows[1..][n-1..] == rows[n..];
    } else {
      WithoutDropsFront(rows[1..], ids, 0);
      assert rows == [rows[0]] + rows[1..];
    }
  }

  // ----- each step keeps the invariant -----

  lemma EnqueueKeepsRows(r: Replica, l: Line)
    requires RowsOrdered(r)
    ensures RowsOrdered(Enqueue(r, l))
    ensures r.outbox <= Enqueue(r, l).outbox
    ensures RowLines(Enqueue(r, l).outbox) == RowLines(r.outbox) + {l}
    ensures SetOf(Enqueue(r, l).written) == SetOf(r.written) + {l}
  {
    var row := OutboxRow(r.nextRow, l);
    assert forall x :: x in r.outbox + [row] <==> x in r.outbox || x == row;
    assert row in r.outbox + [row];
  }

  /** Any write: the line is new or agrees with what is known, it is queued and applied. */
  lemma WriteKeeps(sh: Shared, r: Replica, l: Line, m': Memories, seen': set<Line>)
    requires SharedInv(sh) && ReplicaInv(sh, r)
    requires l.payload.content != ""
    requires forall x :: x in sh.ever && x.id == l.id ==> x.payload == l.payload
    requires seen' <= sh.ever + {l} && Explains(m', seen')
    ensures SharedInv(sh.(ever := sh.ever + {l}))
    ensures ReplicaInv(sh.(ever := sh.ever + {l}), Enqueue(r.(memories := m', seen := seen'), l))
  {
    EnqueueKeepsRows(r.(memories := m', seen := seen'), l);
  }

  lemma SyncKeeps(sh: Shared, r: Replica, id: Id, payload: Payload)
    requires SharedInv(sh) && ReplicaInv(sh, r) && Writable(sh, id, payload)
    ensures SharedInv(DoSync(sh, r, id, payload).0)
    ensures ReplicaInv(DoSync(sh, r, id, payload).0, DoSync(sh, r, id, payload).1)
  {
    var l := Line(id, payload, false);
    assert forall x :: x in sh.ever ==> x.id in Ids(sh.ever);
    IngestLineExplains(r.memories, l, r.seen);
    WriteKeeps(sh, r, l, IngestLine(r.memories, l), r.seen + {l});
  }

  lemma DeleteOneKeeps(sh: Shared, r: Replica, id: Id)
    requires SharedInv(sh) && ReplicaInv(sh, r)
    ensures SharedInv(DeleteOne(sh, r, id).0)
    ensures ReplicaInv(DeleteOne(sh, r, id).0, DeleteOne(sh, r, id).1)
    ensures Grows(sh, DeleteOne(sh, r, id).0)
  {
    if id in r.memories && !r.memories[id].deleted {
      var t := Line(id, r.memories[id].payload, true);
      var x :| x in r.seen && x.id == id && x.payload == r.memories[id].payload;
      IngestLineExplains(r.memories, t, r.seen);
      WriteKeeps(sh, r, t, IngestLine(r.memories, t), r.seen + {t});
    }
  }

  lemma {:induction false} DeleteKeeps(sh: Shared, r: Replica, targets: seq<Id>)
    requires SharedInv(sh) && ReplicaInv(sh, r)
    ensures SharedInv(DoDelete(sh, r, targets).0)
    ensures ReplicaInv(DoDelete(sh, r, targets).0, DoDelete(sh, r, targets).1)
    ensures Grows(sh, DoDelete(sh, r, targets).0)
  {
    if targets != [] {
      DeleteKeeps(sh, r, targets[..|targets|-1]);
      var (sh1, r1) := DoDelete(sh, r, targets[..|targets|-1]);
      DeleteOneKeeps(sh1, r1, targets[|targets|-1]);
    }
  }

  lemma AbsorbKeeps(sh: Shared, r: Replica, ls: seq<Line>)
    requires SharedInv(sh) && ReplicaInv(sh, r) && SetOf(ls) <= sh.ever
    ensures ReplicaInv(sh, Absorb(r, ls))
  {
    IngestAllExplains(r.memories, ls, r.seen);
  }

  lemma {:induction false} IndexableAreQueued(rows: seq<OutboxRow>, failing: set<nat>)
    ensures forall l :: l in Indexable(rows, failing) ==>
      !l.tomb && exists r :: r in rows && r.line == l && r.rowId !in failing
    ensures forall r :: r in rows && !r.line.tomb && r.rowId !in failing ==>
      r.line in Indexable(rows, failing)
  {
    if rows != [] {
      var init, last := rows[..|rows|-1], rows[|rows|-1];
      IndexableAreQueued(init, failing);
      forall l | l in Indexable(rows, failing)
        ensures !l.tomb && exists r :: r in rows && r.line == l && r.rowId !in failing
      {
        if l in Indexable(init, failing) {
          var r :| r in init && r.line == l && r.rowId !in failing;
          assert r in rows;
        } else {
          assert last in rows && last.line == l;
        }
      }
    }
  }

  lemma ResetKeeps(sh: Shared, r: Replica)
    requires SharedInv(sh) && ReplicaInv(sh, r) && At(r, Resetting)
    ensures ReplicaInv(sh, DoReset(r))
  {
    RefLinesMonotone(r.tracking, sh.origin);
  }

  /** What the new tip holds: all of the old branch, the rows, and nothing that nobody wrote. */
  lemma AppendHolds(sh: Shared, r: Replica, stamp: nat)
    requires SharedInv(sh) && ReplicaInv(sh, r) && At(r, Appending)
    ensures var r' := DoAppend(r, stamp); r'.drain.Running? ==>
      && RefLines(r'.local) <= sh.ever
      && RefLines(r.local) + RowLines(r.drain.rows) <= RefLines(r'.local)
      && (IsPrefixOf(r.local, r.tracking) || IsPrefixOf(r.tracking, r.local) ==>
            RefLines(r.tracking) <= RefLines(r'.local))
  {
    var tip := ResolveTip(r.local, r.tracking);
    RefLinesMonotone(r.tracking, sh.origin);
    RefLinesMonotone(r.local, tip);
    if IsPrefixOf(r.tracking, r.local) { RefLinesMonotone(r.tracking, r.local); }
    FlatAppend(HistoryOf(tip), Commit(stamp, LinesOfRows(r.drain.rows)));
    RowLinesAre(r.drain.rows);
    assert forall x :: x in r.drain.rows ==> x in r.outbox;
  }

  lemma AppendKeeps(sh: Shared, r: Replica, stamp: nat)
    requires SharedInv(sh) && ReplicaInv(sh, r) && At(r, Appending)
    ensures ReplicaInv(sh, DoAppend(r, stamp))
    ensures var r' := DoAppend(r, stamp); r'.drain.Running? ==>
      && RefLines(r.local) + RowLines(r.drain.rows) <= RefLines(r'.local)
      && (IsPrefixOf(r.local, r.tracking) || IsPrefixOf(r.tracking, r.local) ==>
            RefLines(r.tracking) <= RefLines(r'.local))
  {
    AppendHolds(sh, r, stamp);
  }

  /** Origin is fast-forwarded to the local branch. */
  lemma FastForwardKeeps(sh: Shared, r: Replica)
    requires SharedInv(sh) && ReplicaInv(sh, r) && r.local.Some? && IsPrefixOf(sh.origin, r.local)
    ensures var sh' := sh.(origin := r.local);
      SharedInv(sh') && Grows(sh, sh') && ReplicaInv(sh', r)
  {
    RefLinesMonotone(sh.origin, r.local);
    OthersKeepInv(sh, sh.(origin := r.local), r);
  }

  lemma PushKeeps(sh: Shared, r: Replica, outcome: PushOutcome)
    requires SharedInv(sh) && ReplicaInv(sh, r) && At(r, Pushing)
    ensures SharedInv(DoPush(sh, r, outcome).0)
    ensures ReplicaInv(DoPush(sh, r, outcome).0, DoPush(sh, r, outcome).1)
    ensures Grows(sh, DoPush(sh, r, outcome).0)
  {
    if r.local.Some? && IsPrefixOf(sh.origin, r.local) { FastForwardKeeps(sh, r); }
  }

  lemma RowsSplit(rows: seq<OutboxRow>, front: seq<OutboxRow>)
    requires front <= rows
    ensures RowLines(rows) == RowLines(front) + RowLines(rows[|front|..])
    ensures front == rows[..|front|]
  {
    var n := |front|;
    assert rows == rows[..n] + rows[n..];
    assert forall x :: x in rows <==> x in rows[..n] || x in rows[n..];
  }

  lemma RemovedKeeps(sh: Shared, r: Replica)
    requires ReplicaInv(sh, r) && At(r, Removing)
    ensures var r' := DoRemove(r, true);
      r'.outbox == r.outbox[|r.drain.rows|..] && RowsOrdered(r') && Accounted(sh, r')
  {
    RowsSplit(r.outbox, r.drain.rows);
    RemovalIsSuffix(r.outbox, |r.drain.rows|);
  }

  lemma RemoveKeeps(sh: Shared, r: Replica, ok: bool)
    requires ReplicaInv(sh, r) && At(r, Removing)
    ensures ReplicaInv(sh, DoRemove(r, ok))
    ensures ok ==> DoRemove(r, ok).outbox == r.outbox[|r.drain.rows|..]
  {
    if ok { RemovedKeeps(sh, r); }
  }

  /** What a step has to keep. */
  ghost predicate Kept(sh: Shared, after: (Shared, Replica)) {
    SharedInv(after.0) && ReplicaInv(after.0, after.1) && Grows(sh, after.0)
  }

  lemma WriterKeeps(sh: Shared, r: Replica, a: Action)
    requires SharedInv(sh) && ReplicaInv(sh, r)
    requires a.Sync? || a.OfflineWrite? || a.Delete?
    ensures Kept(sh, Act(sh, r, a))
  {
    match a {
      case Sync(id, payload) =>
        if Writable(sh, id, payload) { SyncKeeps(sh, r, id, payload); }
      case OfflineWrite(id, payload) =>
        if Writable(sh, id, payload) {
          assert forall x :: x in sh.ever ==> x.id in Ids(sh.ever);
          WriteKeeps(sh, r, Line(id, payload, false), r.memories, r.seen);
        }
      case Delete(targets) => DeleteKeeps(sh, r, targets);
    }
  }

  lemma ReaderKeeps(sh: Shared, r: Replica, a: Action)
    requires SharedInv(sh) && ReplicaInv(sh, r)
    requires a.Index? || a.PullFetch? || a.Checkout? || a.Pull?
    ensures Kept(sh, Act(sh, r, a))
  {
    match a {
      case Index(failing) =>
        IndexableAreQueued(r.outbox, failing);
        AbsorbKeeps(sh, r, Indexable(r.outbox, failing));
      case PullFetch =>
      case Checkout =>
        RefLinesMonotone(r.local, ResolveTip(r.local, r.tracking));
        RefLinesMonotone(r.tracking, sh.origin);
      case Pull(ls) =>
        RefLinesMonotone(r.tracking, sh.origin);
        if SetOf(ls) <= RefLines(r.tracking) { AbsorbKeeps(sh, r, ls); }
    }
  }

  /** Every step of every kind keeps the replica's invariant, and the shared state only grows. */
  lemma StepKeeps(sh: Shared, r: Replica, a: Action)
    requires SharedInv(sh) && ReplicaInv(sh, r)
    ensures Kept(sh, Act(sh, r, a))
  {
    match a {
      case Sync(_, _) => WriterKeeps(sh, r, a);
      case OfflineWrite(_, _) => WriterKeeps(sh, r, a);
      case Delete(_) => WriterKeeps(sh, r, a);
      case Index(_) => ReaderKeeps(sh, r, a);
      case PullFetch => ReaderKeeps(sh, r, a);
      case Checkout => ReaderKeeps(sh, r, a);
      case Pull(_) => ReaderKeeps(sh, r, a);
      case Push(outcome) => if At(r, Pushing) { PushKeeps(sh, r, outcome); }
      case Reset => if At(r, Resetting) { ResetKeeps(sh, r); }
      case Append(stamp) => if At(r, Appending) { AppendKeeps(sh, r, stamp); }
      case Remove(ok) => if At(r, Removing) { RemoveKeeps(sh, r, ok); }
      case _ =>
    }
  }

  /** A write with text under an id that no line has yet queues one live line behind all others; an online one
      also puts the row into the index, an offline one leaves that to the next boot or pull.  Any other write
      changes nothing. */
  lemma WriteQueues(sh: Shared, r: Replica, id: Id, payload: Payload)
    ensures var (synced, offline) := (Act(sh, r, Sync(id, payload)), Act(sh, r, OfflineWrite(id, payload)));
      var l := Line(id, payload, false);
      if payload.content != "" && forall x :: x in sh.ever ==> x.id != id then
        && synced.1.outbox == offline.1.outbox == r.outbox + [OutboxRow(r.nextRow, l)]
        && synced.0 == offline.0 == sh.(ever := sh.ever + {l})
        && synced.1.memories == (if id in r.memories then r.memories else r.memories[id := Row(payload, false)])
        && offline.1.memories == r.memories
      else synced == offline == (sh, r)
  {
    assert id in Ids(sh.ever) <==> exists x :: x in sh.ever && x.id == id;
  }

  /** Origin moves, to the local branch, only by a push that reaches it and fast-forwards it; rows are removed
      next only when git says so too; a push that is rejected or does not fast-forward is tried again while
      there are attempts left; anything else ends the drain with its rows in place. */
  lemma PushOutcomes(sh: Shared, r: Replica, outcome: PushOutcome)
    requires At(r, Pushing) && r.local.Some?
    ensures var ff := IsPrefixOf(sh.origin, r.local);
      var (sh', r') := Act(sh, r, Push(outcome));
      var again := (outcome.Rejected? || (!ff && !outcome.Failed?)) && r.drain.attempt < 3;
      && sh'.origin == (if ff && (outcome.Landed? || outcome.LandedUnacknowledged?) then r.local else sh.origin)
      && r'.tracking == (if ff && outcome.Landed? then r.local else r.tracking)
      && r'.outbox == r.outbox && r'.local == r.local && r'.memories == r.memories
      && (At(r', Removing) <==> ff && outcome.Landed?)
      && (At(r', Fetching) <==> again) && (again ==> r'.drain.attempt == r.drain.attempt + 1)
      && (r'.drain.Idle? <==> !again && !(ff && outcome.Landed?))
  {
  }

  /** A forced reset moves the local branch to the remote-tracking tip; when there is none, the branch stays.
      Either way nothing else changes, and the append comes next. */
  lemma ResetsToRemote(sh: Shared, r: Replica)
    requires At(r, Resetting)
    ensures var (sh', r') := Act(sh, r, Reset);
      && sh' == sh && At(r', Appending) && r'.drain.rows == r.drain.rows
      && r'.local == (if r.tracking.Some? then r.tracking else r.local)
      && r'.tracking == r.tracking && r'.outbox == r.outbox && r'.memories == r.memories
  {
  }
}
