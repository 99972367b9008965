/**
 The order of lines in the log of a cortex whose entries have one writer each: an entry is written and
 deleted by the same replica, of any number.

 Drains may re-append rows whose removal failed, or whose push landed unacknowledged, so the log
 can read live, tombstone, live, tombstone.  What survives every retry is that the last line of a
 deleted id is a tombstone, which is what a last-wins rebuild needs.  When a replica deletes what
 another one wrote it can fail.
 */
module SingleWriter {
  import opened Wrappers
  import opened L1Log
  import opened Ingest
  import opened Replica
  import opened Replication
  import opened Runs

  /** In the order lines were written, nothing but tombstones follows a tombstone of an id. */
  ghost predicate WriteOrder(w: seq<Line>) {
    forall p, q :: 0 <= p < q < |w| && w[p].id == w[q].id && w[p].tomb ==> w[q].tomb
  }

  /** Commit i is the run of written lines from starts[i] up to ends[i]; the ends never go back
      and none is past m. */
  ghost predicate BatchedBy(h: History, w: seq<Line>, m: nat, starts: seq<nat>, ends: seq<nat>) {
    && m <= |w|
    && |starts| == |h| && |ends| == |h|
    && (forall i :: 0 <= i < |h| ==> starts[i] <= ends[i] <= m)
    && (forall i, j :: 0 <= i <= j < |h| ==> ends[i] <= ends[j])
    && (forall i :: 0 <= i < |h| ==> h[i].lines == w[starts[i]..ends[i]])
  }

  ghost predicate Batched(h: History, w: seq<Line>, m: nat) {
    exists starts: seq<nat>, ends: seq<nat> :: BatchedBy(h, w, m, starts, ends)
  }

  lemma BatchedMono(h: History, w: seq<Line>, m: nat, w': seq<Line>, m': nat)
    requires Batched(h, w, m) && w <= w' && m <= m' <= |w'|
    ensures Batched(h, w', m')
  {
    var starts, ends :| BatchedBy(h, w, m, starts, ends);
    forall i | 0 <= i < |h| ensures h[i].lines == w'[starts[i]..ends[i]] {
      assert w[starts[i]..ends[i]] == w'[starts[i]..ends[i]];
    }
    assert BatchedBy(h, w', m', starts, ends);
  }

  lemma BatchedExtend(h: History, w: seq<Line>, a: nat, b: nat, c: Commit)
    requires Batched(h, w, b) && a <= b && c.lines == w[a..b]
    ensures Batched(h + [c], w, b)
  {
    var starts, ends :| BatchedBy(h, w, b, starts, ends);
    assert BatchedBy(h + [c], w, b, starts + [a], ends + [b]);
  }

  lemma BatchedSplit(h: History, w: seq<Line>, m: nat) returns (a: nat, b: nat)
    requires Batched(h, w, m) && h != []
    ensures a <= b <= m <= |w| && h[|h|-1].lines == w[a..b] && Batched(h[..|h|-1], w, b)
  {
    var starts, ends :| BatchedBy(h, w, m, starts, ends);
    var n := |h| - 1;
    a, b := starts[n], ends[n];
    assert BatchedBy(h[..n], w, b, starts[..n], ends[..n]);
  }

  lemma {:induction false} BatchedLines(h: History, w: seq<Line>, m: nat, l: Line)
    requires Batched(h, w, m) && l in Flat(h)
    ensures m <= |w| && exists q: nat :: q < m && w[q] == l
  {
    if h != [] {
      var a, b := BatchedSplit(h, w, m);
      if l in w[a..b] {
        var i :| 0 <= i < |w[a..b]| && w[a..b][i] == l;
        assert w[a + i] == l;
      } else {
        BatchedLines(h[..|h|-1], w, b, l);
      }
    }
  }

  /** The step behind the theorem below: one more batch, ending no earlier than the log so far. */
  lemma BatchKeepsTombsLast(f: seq<Line>, w: seq<Line>, a: nat, b: nat)
    requires WriteOrder(w) && TombsLast(f) && a <= b <= |w|
    requires forall l :: l in f ==> exists q: nat :: q < b && w[q] == l
    ensures TombsLast(f + w[a..b])
  {
    var g := f + w[a..b];
    forall k: nat | k < |g| && g[k].tomb ensures EndsDeleted(g, g[k].id) {
      var id := g[k].id;
      LastExists(g, k);
      var n: nat :| k <= n && LastOf(g, id, n);
      if n < |f| {
        assert f[k] == g[k];
        var n': nat :| LastOf(f, id, n') && f[n'].tomb;
        assert g[n'] == f[n'] && g[n] == f[n];
        assert n == n';
      } else if k < |f| {
        var p := a + (n - |f|);
        assert g[n] == w[p];
        forall x | p < x < b ensures w[x].id != id {
          assert g[|f| + (x - a)] == w[x];
        }
        assert f[k] in f;
        var q: nat :| q < b && w[q] == f[k];
      } else {
        assert g[k] == w[a + (k - |f|)] && g[n] == w[a + (n - |f|)];
        assert g[n].tomb;
      }
    }
  }

  /** Whatever was retried, the last line of every deleted id in the log is a tombstone. */
  lemma {:induction false} BatchedTombsLast(h: History, w: seq<Line>, m: nat)
    requires Batched(h, w, m) && WriteOrder(w)
    ensures TombsLast(Flat(h))
  {
    if h != [] {
      var a, b := BatchedSplit(h, w, m);
      var init := h[..|h|-1];
      BatchedTombsLast(init, w, b);
      forall l | l in Flat(init) ensures exists q: nat :: q < b && w[q] == l {
        BatchedLines(init, w, b, l);
      }
      BatchKeepsTombsLast(Flat(init), w, a, b);
    }
  }

  // ----- the lines of one writer -----

  /** The lines of the given ids, in order. */
  function Keep(ls: seq<Line>, own: set<Id>): seq<Line> {
    if ls == [] then []
    else Keep(ls[..|ls|-1], own) + if ls[|ls|-1].id in own then [ls[|ls|-1]] else []
  }

  function KeptIn(c: Commit, own: set<Id>): Commit {
    Commit(c.stamp, Keep(c.lines, own))
  }

  /** A history without the lines of other ids. */
  function Only(h: History, own: set<Id>): (r: History)
    ensures |r| == |h|
  {
    seq(|h|, i requires 0 <= i < |h| => KeptIn(h[i], own))
  }

  ghost predicate AllIn(ls: seq<Line>, own: set<Id>) {
    forall l :: l in ls ==> l.id in own
  }

  ghost predicate NoneIn(ls: seq<Line>, own: set<Id>) {
    forall l :: l in ls ==> l.id !in own
  }

  lemma {:induction false} KeepAll(ls: seq<Line>, own: set<Id>)
    requires AllIn(ls, own)
    ensures Keep(ls, own) == ls
  {
    if ls != [] {
      assert ls[|ls|-1] in ls;
      KeepAll(ls[..|ls|-1], own);
    }
  }

  lemma {:induction false} KeepNone(ls: seq<Line>, own: set<Id>)
    requires NoneIn(ls, own)
    ensures Keep(ls, own) == []
  {
    if ls != [] {
      assert ls[|ls|-1] in ls;
      KeepNone(ls[..|ls|-1], own);
    }
  }

  lemma {:induction false} KeepConcat(a: seq<Line>, b: seq<Line>, own: set<Id>)
    ensures Keep(a + b, own) == Keep(a, own) + Keep(b, own)
    decreases |b|
  {
    if b == [] {
      assert a + b == a;
    } else {
      KeepConcat(a, b[..|b|-1], own);
      assert (a + b)[..|a + b|-1] == a + b[..|b|-1];
    }
  }

  lemma OnlySnoc(h: History, c: Commit, own: set<Id>)
    ensures Only(h + [c], own) == Only(h, own) + [KeptIn(c, own)]
  {
  }

  lemma {:induction false} FlatOnly(h: History, own: set<Id>)
    ensures Flat(Only(h, own)) == Keep(Flat(h), own)
  {
    if h != [] {
      var init, c := h[..|h|-1], h[|h|-1];
      assert h == init + [c];
      FlatOnly(init, own);
      OnlySnoc(init, c, own);
      FlatAppend(Only(init, own), KeptIn(c, own));
      KeepConcat(Flat(init), c.lines, own);
    }
  }

  /** Leaving out other ids does not change which line of an id is the last. */
  lemma {:induction false} KeepLast(ls: seq<Line>, own: set<Id>, id: Id)
    requires id in own
    ensures EndsDeleted(Keep(ls, own), id) <==> EndsDeleted(ls, id)
  {
    if ls != [] {
      var init, l := ls[..|ls|-1], ls[|ls|-1];
      assert ls == init + [l];
      KeepLast(init, own, id);
      LastOfSnoc(init, l, id);
      if l.id in own { LastOfSnoc(Keep(init, own), l, id); }
      else { assert Keep(ls, own) == Keep(init, own); }
    }
  }

  lemma LastOfSnoc(init: seq<Line>, l: Line, id: Id)
    ensures EndsDeleted(init + [l], id) <==> if l.id == id then l.tomb else EndsDeleted(init, id)
  {
    var ls, n := init + [l], |init|;
    if l.id == id {
      assert LastOf(ls, id, n);
    } else {
      forall k: nat ensures LastOf(ls, id, k) <==> LastOf(init, id, k) {
        assert forall j :: 0 <= j < n ==> ls[j] == init[j];
        if LastOf(init, id, k) {
          forall j | k < j < |ls| ensures ls[j].id != id { if j < n { assert init[j].id != id; } }
        }
        if LastOf(ls, id, k) {
          assert k != n;
          forall j | k < j < n ensures init[j].id != id { assert ls[j].id != id; }
        }
      }
      if EndsDeleted(init, id) {
        var k: nat :| LastOf(init, id, k) && init[k].tomb;
        assert LastOf(ls, id, k) && ls[k].tomb;
      }
    }
  }

  // ----- the writer keeps that order -----

  /** The outbox holds the last lines written, in order. */
  ghost predicate QueueOrder(r: Replica) {
    && WriteOrder(r.written)
    && |r.outbox| <= |r.written|
    && (forall i :: 0 <= i < |r.outbox| ==> r.outbox[i].line == r.written[|r.written|-|r.outbox|+i])
    && (r.drain.Running? ==> r.drain.rows <= r.outbox)
  }

  /** How far into the written lines the current commit, or else the next one, reaches. */
  function Reach(r: Replica): nat
    requires |r.outbox| <= |r.written|
  {
    if r.drain.Running? then |r.written| - |r.outbox| + |r.drain.rows| else |r.written|
  }

  /** Of the writer's lines, each of these refs holds batches. */
  ghost predicate RefsBatched(own: set<Id>, sh: Shared, r: Replica, w: seq<Line>, m: nat) {
    && Batched(Only(HistoryOf(r.local), own), w, m)
    && Batched(Only(HistoryOf(r.tracking), own), w, m)
    && Batched(Only(HistoryOf(sh.origin), own), w, m)
  }

  ghost predicate OrderInv(own: set<Id>, sh: Shared, r: Replica) {
    && QueueOrder(r)
    && RefsBatched(own, sh, r, r.written, Reach(r))
    && SetOf(r.written) <= sh.ever && AllIn(r.written, own)
  }

  lemma RefsBatchedMono(own: set<Id>, sh: Shared, r: Replica, w: seq<Line>, m: nat, w': seq<Line>, m': nat)
    requires RefsBatched(own, sh, r, w, m) && w <= w' && m <= m' <= |w'|
    ensures RefsBatched(own, sh, r, w', m')
  {
    BatchedMono(Only(HistoryOf(r.local), own), w, m, w', m');
    BatchedMono(Only(HistoryOf(r.tracking), own), w, m, w', m');
    BatchedMono(Only(HistoryOf(sh.origin), own), w, m, w', m');
  }

  lemma {:induction false} LinesOfRowsAt(rows: seq<OutboxRow>)
    ensures |LinesOfRows(rows)| == |rows|
    ensures forall i :: 0 <= i < |rows| ==> LinesOfRows(rows)[i] == rows[i].line
  {
    if rows != [] { LinesOfRowsAt(rows[..|rows|-1]); }
  }

  lemma EnqueueKeepsOrder(own: set<Id>, sh: Shared, r: Replica, l: Line, m': Memories, seen': set<Line>)
    requires OrderInv(own, sh, r)
    requires l.id in own && (l.tomb || forall x :: x in sh.ever ==> x.id != l.id)
    ensures OrderInv(own, sh.(ever := sh.ever + {l}), Enqueue(r.(memories := m', seen := seen'), l))
  {
    var r1 := r.(memories := m', seen := seen');
    var r' := Enqueue(r1, l);
    assert forall x :: x in r.written ==> x in SetOf(r.written);
    RefsBatchedMono(own, sh, r, r.written, Reach(r), r'.written, Reach(r'));
  }

  lemma {:induction false} DeleteKeepsOrder(own: set<Id>, sh: Shared, r: Replica, targets: seq<Id>)
    requires OrderInv(own, sh, r) && AllIn(DoDelete(sh, r, targets).1.written, own)
    ensures OrderInv(own, DoDelete(sh, r, targets).0, DoDelete(sh, r, targets).1)
  {
    if targets != [] {
      var init, id := targets[..|targets|-1], targets[|targets|-1];
      var (sh1, r1) := DoDelete(sh, r, init);
      var r2 := DoDelete(sh, r, targets).1;
      assert r1.written <= r2.written && forall l :: l in r1.written ==> l in r2.written;
      DeleteKeepsOrder(own, sh, r, init);
      if id in r1.memories && !r1.memories[id].deleted {
        var t := Line(id, r1.memories[id].payload, true);
        assert t in r2.written;
        EnqueueKeepsOrder(own, sh1, r1, t, r1.memories[id := r1.memories[id].(deleted := true)],
                          r1.seen + {t});
      }
    }
  }

  /** The drain ends, or fails, without touching the refs. */
  lemma IdleKeepsOrder(own: set<Id>, sh: Shared, r: Replica, r': Replica, n: nat)
    requires OrderInv(own, sh, r)
    requires r'.local == r.local && r'.tracking == r.tracking && r'.written == r.written
    requires r'.drain.Idle? && n <= |r.outbox| && r'.outbox == r.outbox[n..]
    ensures OrderInv(own, sh, r')
  {
    RefsBatchedMono(own, sh, r, r.written, Reach(r), r.written, |r.written|);
  }

  /** The drain's rows are the written lines from the front of the outbox to its reach. */
  lemma DrainRowsAreSlice(r: Replica)
    requires QueueOrder(r) && r.drain.Running?
    ensures LinesOfRows(r.drain.rows) == r.written[|r.written|-|r.outbox|..Reach(r)]
  {
    var w, rows := r.written, r.drain.rows;
    var a, ls := |w| - |r.outbox|, LinesOfRows(rows);
    LinesOfRowsAt(rows);
    forall i | 0 <= i < |rows| ensures ls[i] == w[a + i] {
      assert rows[i] == r.outbox[i];
    }
  }

  ghost predicate SameQueue(r: Replica, r': Replica) {
    && r'.written == r.written && r'.outbox == r.outbox
    && (r'.drain.Running? <==> r.drain.Running?)
    && (r.drain.Running? ==> r'.drain.rows == r.drain.rows)
  }

  /** The next commit on any known tip. */
  lemma NextCommitBatched(own: set<Id>, sh: Shared, r: Replica, tip: Option<History>, stamp: nat)
    requires OrderInv(own, sh, r) && r.drain.Running? && (tip == r.local || tip == r.tracking)
    ensures Batched(Only(HistoryOf(tip) + [Commit(stamp, LinesOfRows(r.drain.rows))], own), r.written, Reach(r))
  {
    var c, a := Commit(stamp, LinesOfRows(r.drain.rows)), |r.written| - |r.outbox|;
    DrainRowsAreSlice(r);
    assert forall l :: l in r.written[a..Reach(r)] ==> l in r.written;
    KeepAll(c.lines, own);
    OnlySnoc(HistoryOf(tip), c, own);
    BatchedExtend(Only(HistoryOf(tip), own), r.written, a, Reach(r), c);
  }

  lemma AppendKeepsOrder(own: set<Id>, sh: Shared, r: Replica, stamp: nat)
    requires OrderInv(own, sh, r) && At(r, Appending)
    ensures OrderInv(own, sh, DoAppend(r, stamp))
  {
    if r.local.None? && r.tracking.Some? {
      assert r.outbox[0..] == r.outbox;
      IdleKeepsOrder(own, sh, r, r.(drain := Idle), 0);
    } else {
      var tip := ResolveTip(r.local, r.tracking);
      NextCommitBatched(own, sh, r, tip, stamp);
    }
  }

  lemma PushKeepsOrder(own: set<Id>, sh: Shared, r: Replica, outcome: PushOutcome)
    requires OrderInv(own, sh, r) && At(r, Pushing)
    ensures OrderInv(own, DoPush(sh, r, outcome).0, DoPush(sh, r, outcome).1)
  {
    var (sh', r') := DoPush(sh, r, outcome);
    assert r.outbox[0..] == r.outbox;
    if r'.drain.Idle? { IdleKeepsOrder(own, sh', r, r', 0); }
  }

  lemma RemoveKeepsOrder(own: set<Id>, sh: Shared, r: Replica, ok: bool)
    requires RowsOrdered(r) && OrderInv(own, sh, r) && At(r, Removing)
    ensures OrderInv(own, sh, DoRemove(r, ok))
  {
    assert r.outbox[0..] == r.outbox;
    if ok {
      RemovalIsSuffix(r.outbox, |r.drain.rows|);
      assert r.drain.rows == r.outbox[..|r.drain.rows|];
    }
    IdleKeepsOrder(own, sh, r, DoRemove(r, ok), if ok then |r.drain.rows| else 0);
  }

  lemma WriteKeepsOrder(own: set<Id>, sh: Shared, r: Replica, id: Id, payload: Payload)
    requires OrderInv(own, sh, r) && Writable(sh, id, payload) && id in own
    ensures OrderInv(own, DoSync(sh, r, id, payload).0, DoSync(sh, r, id, payload).1)
    ensures OrderInv(own, DoOfflineWrite(sh, r, id, payload).0, DoOfflineWrite(sh, r, id, payload).1)
  {
    var l := Line(id, payload, false);
    assert forall x :: x in sh.ever ==> x.id in Ids(sh.ever);
    EnqueueKeepsOrder(own, sh, r, l, IngestLine(r.memories, l), r.seen + {l});
    EnqueueKeepsOrder(own, sh, r, l, r.memories, r.seen);
  }

  /** A step that only makes a ref point where some ref already pointed. */
  lemma RefMoveKeepsOrder(own: set<Id>, sh: Shared, r: Replica, r': Replica)
    requires OrderInv(own, sh, r) && SameQueue(r, r')
    requires r'.local in {r.local, r.tracking, sh.origin}
    requires r'.tracking in {r.local, r.tracking, sh.origin}
    ensures OrderInv(own, sh, r')
  {
  }

  lemma WriterKeepsOrder(own: set<Id>, sh: Shared, r: Replica, a: Action)
    requires OrderInv(own, sh, r) && (a.Sync? || a.OfflineWrite? || a.Delete?)
    requires AllIn(Act(sh, r, a).1.written, own)
    ensures OrderInv(own, Act(sh, r, a).0, Act(sh, r, a).1)
  {
    var written := Act(sh, r, a).1.written;
    match a {
      case Sync(id, payload) =>
        if Writable(sh, id, payload) {
          assert written[|written|-1] in written;
          WriteKeepsOrder(own, sh, r, id, payload);
        }
      case OfflineWrite(id, payload) =>
        if Writable(sh, id, payload) {
          assert written[|written|-1] in written;
          WriteKeepsOrder(own, sh, r, id, payload);
        }
      case Delete(targets) => DeleteKeepsOrder(own, sh, r, targets);
    }
  }

  lemma RefStepKeepsOrder(own: set<Id>, sh: Shared, r: Replica, a: Action)
    requires OrderInv(own, sh, r)
    requires a.PreflightFetch? || a.Fetch? || a.Reset? || a.Checkout? || a.PullFetch?
    ensures OrderInv(own, Act(sh, r, a).0, Act(sh, r, a).1)
  {
    match a {
      case PreflightFetch(fetched, threshold) =>
        if At(r, Preflight) { RefMoveKeepsOrder(own, sh, r, DoPreflight(sh, r, fetched, threshold)); }
      case Fetch(fetched) =>
        if At(r, Fetching) { RefMoveKeepsOrder(own, sh, r, DoFetch(sh, r, fetched)); }
      case Reset => if At(r, Resetting) { RefMoveKeepsOrder(own, sh, r, DoReset(r)); }
      case Checkout => RefMoveKeepsOrder(own, sh, r, r.(local := ResolveTip(r.local, r.tracking)));
      case PullFetch => RefMoveKeepsOrder(own, sh, r, r.(tracking := sh.origin));
    }
  }

  lemma StartKeepsOrder(own: set<Id>, sh: Shared, r: Replica, skipPush: bool)
    requires OrderInv(own, sh, r)
    ensures OrderInv(own, sh, DoDrainStart(r, skipPush))
  {
  }

  lemma AbsorbKeepsOrder(own: set<Id>, sh: Shared, r: Replica, ls: seq<Line>)
    requires OrderInv(own, sh, r)
    ensures OrderInv(own, sh, Absorb(r, ls))
  {
  }

  lemma StepKeepsOrder(own: set<Id>, sh: Shared, r: Replica, a: Action)
    requires RowsOrdered(r) && OrderInv(own, sh, r) && AllIn(Act(sh, r, a).1.written, own)
    ensures OrderInv(own, Act(sh, r, a).0, Act(sh, r, a).1)
  {
    match a {
      case Sync(_, _) => WriterKeepsOrder(own, sh, r, a);
      case OfflineWrite(_, _) => WriterKeepsOrder(own, sh, r, a);
      case Delete(_) => WriterKeepsOrder(own, sh, r, a);
      case Append(stamp) => if At(r, Appending) { AppendKeepsOrder(own, sh, r, stamp); }
      case Push(outcome) => if At(r, Pushing) { PushKeepsOrder(own, sh, r, outcome); }
      case Remove(ok) => if At(r, Removing) { RemoveKeepsOrder(own, sh, r, ok); }
      case Abort =>
        assert r.outbox[0..] == r.outbox;
        IdleKeepsOrder(own, sh, r, r.(drain := Idle), 0);
      case DrainStart(skipPush) => StartKeepsOrder(own, sh, r, skipPush);
      case Index(failing) => AbsorbKeepsOrder(own, sh, r, Indexable(r.outbox, failing));
      case Pull(ls) => AbsorbKeepsOrder(own, sh, r, ls);
      case _ => RefStepKeepsOrder(own, sh, r, a);
    }
  }

  // ----- the others keep it too -----

  /** What another replica's refs and origin hold of the writer's lines. */
  lemma OtherAppends(own: set<Id>, sh: Shared, x: Replica, stamp: nat, w: seq<Line>, m: nat)
    requires RefsBatched(own, sh, x, w, m) && m <= |w| && At(x, Appending)
    requires NoneIn(LinesOfRows(x.drain.rows), own)
    ensures RefsBatched(own, sh, DoAppend(x, stamp), w, m)
  {
    var tip, c := ResolveTip(x.local, x.tracking), Commit(stamp, LinesOfRows(x.drain.rows));
    KeepNone(c.lines, own);
    OnlySnoc(HistoryOf(tip), c, own);
    BatchedExtend(Only(HistoryOf(tip), own), w, m, m, KeptIn(c, own));
  }

  lemma {:induction false} DeleteKeepsRefs(sh: Shared, r: Replica, targets: seq<Id>)
    ensures var (sh', r') := DoDelete(sh, r, targets);
      && r'.local == r.local && r'.tracking == r.tracking && sh'.origin == sh.origin
      && r'.drain == r.drain && r.outbox <= r'.outbox && r.written <= r'.written
      && |r'.written| - |r'.outbox| == |r.written| - |r.outbox|
  {
    if targets != [] { DeleteKeepsRefs(sh, r, targets[..|targets|-1]); }
  }

  /** A step of a replica that does not write these ids adds empty batches at most. */
  lemma OtherStepKeeps(own: set<Id>, sh: Shared, x: Replica, a: Action, w: seq<Line>, m: nat)
    requires RefsBatched(own, sh, x, w, m) && m <= |w|
    requires x.drain.Running? ==> NoneIn(LinesOfRows(x.drain.rows), own)
    ensures RefsBatched(own, Act(sh, x, a).0, Act(sh, x, a).1, w, m)
  {
    match a {
      case Append(stamp) => if At(x, Appending) { OtherAppends(own, sh, x, stamp, w, m); }
      case Delete(targets) => DeleteKeepsRefs(sh, x, targets);
      case _ =>
    }
  }

  /** The writer's reach never shrinks. */
  lemma ReachGrows(sh: Shared, r: Replica, a: Action)
    requires RowsOrdered(r) && QueueOrder(r) && QueueOrder(Act(sh, r, a).1)
    ensures r.written <= Act(sh, r, a).1.written && Reach(r) <= Reach(Act(sh, r, a).1)
  {
    match a {
      case Delete(targets) => DeleteKeepsRefs(sh, r, targets);
      case _ =>
    }
  }

  /** Replica j writes only these ids, and no other replica does. */
  ghost predicate Owns(s: System, j: nat, own: set<Id>) {
    && j < |s.replicas| && AllIn(s.replicas[j].written, own)
    && forall i :: 0 <= i < |s.replicas| && i != j ==> NoneIn(s.replicas[i].written, own)
  }

  ghost predicate OwnerInv(s: System, j: nat, own: set<Id>) {
    && j < |s.replicas| && OrderInv(own, s.sh, s.replicas[j])
    && forall i :: 0 <= i < |s.replicas| ==>
         RefsBatched(own, s.sh, s.replicas[i], s.replicas[j].written, Reach(s.replicas[j]))
  }

  lemma OwnsBefore(s: System, e: Event, j: nat, own: set<Id>)
    requires Owns(Step(s, e), j, own)
    ensures Owns(s, j, own)
  {
    if e.who < |s.replicas| {
      var s' := Step(s, e);
      StepWrites(s.sh, s.replicas[e.who], e.action);
      forall i, l | 0 <= i < |s.replicas| && l in s.replicas[i].written ensures l in s'.replicas[i].written {
        if i != e.who { assert s'.replicas[i] == s.replicas[i]; }
      }
    }
  }

  lemma OwnerSteps(s: System, e: Event, j: nat, own: set<Id>)
    requires SystemInv(s) && OwnerInv(s, j, own) && Owns(Step(s, e), j, own) && e.who == j
    ensures OwnerInv(Step(s, e), j, own)
  {
    var s', r := Step(s, e), s.replicas[j];
    assert ReplicaInv(s.sh, r);
    StepKeepsOrder(own, s.sh, r, e.action);
    var r' := s'.replicas[j];
    ReachGrows(s.sh, r, e.action);
    forall i | 0 <= i < |s'.replicas| ensures RefsBatched(own, s'.sh, s'.replicas[i], r'.written, Reach(r')) {
      if i != j { RefsBatchedMono(own, s.sh, s.replicas[i], r.written, Reach(r), r'.written, Reach(r')); }
    }
  }

  lemma OtherSteps(s: System, e: Event, j: nat, own: set<Id>)
    requires SystemInv(s) && OwnerInv(s, j, own) && Owns(s, j, own) && e.who != j && e.who < |s.replicas|
    ensures OwnerInv(Step(s, e), j, own)
  {
    var s', x, r := Step(s, e), s.replicas[e.who], s.replicas[j];
    assert ReplicaInv(s.sh, x);
    OthersRows(s.sh, x, own);
    OtherStepKeeps(own, s.sh, x, e.action, r.written, Reach(r));
    StepKeepsSystem(s, e);
    forall i | 0 <= i < |s'.replicas| ensures RefsBatched(own, s'.sh, s'.replicas[i], r.written, Reach(r)) {
      if i != e.who { assert s'.replicas[i] == s.replicas[i]; }
    }
  }

  lemma OthersRows(sh: Shared, x: Replica, own: set<Id>)
    requires ReplicaInv(sh, x) && NoneIn(x.written, own)
    ensures x.drain.Running? ==> NoneIn(LinesOfRows(x.drain.rows), own)
  {
    if x.drain.Running? {
      RowLinesAre(x.drain.rows);
      forall l | l in LinesOfRows(x.drain.rows) ensures l.id !in own {
        assert l in SetOf(LinesOfRows(x.drain.rows));
        var row :| row in x.drain.rows && row.line == l;
        assert row in x.outbox && l in RowLines(x.outbox);
      }
    }
  }

  lemma {:induction false} RunKeepsOwner(n: nat, es: seq<Event>, j: nat, own: set<Id>)
    requires Owns(Run(Start(n), es), j, own)
    ensures |Run(Start(n), es).replicas| == n
    ensures SystemInv(Run(Start(n), es)) && OwnerInv(Run(Start(n), es), j, own)
  {
    RunKeeps(Start(n), es);
    if es == [] {
      assert Only([], own) == [];
      assert BatchedBy([], [], 0, [], []);
    } else {
      var init, e := es[..|es|-1], es[|es|-1];
      var s := Run(Start(n), init);
      OwnsBefore(s, e, j, own);
      RunKeepsOwner(n, init, j, own);
      if e.who == j { OwnerSteps(s, e, j, own); }
      else if e.who < |s.replicas| { OtherSteps(s, e, j, own); }
    }
  }

  /** No entry is written or deleted by two replicas. */
  ghost predicate OneWriterEach(s: System) {
    forall i, j :: 0 <= i < |s.replicas| && 0 <= j < |s.replicas| && i != j ==>
      NoneIn(s.replicas[i].written, Ids(SetOf(s.replicas[j].written)))
  }

  lemma OwnerEndsDeleted(n: nat, es: seq<Event>, j: nat, log: seq<Line>, k: nat)
    requires OneWriterEach(Run(Start(n), es)) && log == Flat(HistoryOf(Run(Start(n), es).sh.origin))
    requires j < |Run(Start(n), es).replicas| && k < |log| && log[k].tomb
    requires log[k] in Run(Start(n), es).replicas[j].written
    ensures EndsDeleted(log, log[k].id)
  {
    var s := Run(Start(n), es);
    var h, r := HistoryOf(s.sh.origin), s.replicas[j];
    var own := Ids(SetOf(r.written));
    assert Owns(s, j, own);
    RunKeepsOwner(n, es, j, own);
    BatchedTombsLast(Only(h, own), r.written, Reach(r));
    FlatOnly(h, own);
    KeepIn(log, own, log[k]);
    var kept := Keep(log, own);
    var p: nat :| p < |kept| && kept[p] == log[k];
    assert EndsDeleted(kept, kept[p].id);
    KeepLast(log, own, log[k].id);
  }

  lemma {:induction false} KeepIn(ls: seq<Line>, own: set<Id>, l: Line)
    requires l in ls && l.id in own
    ensures l in Keep(ls, own)
  {
    if l != ls[|ls|-1] { KeepIn(ls[..|ls|-1], own, l); }
  }

  /** When every entry is written and deleted by one replica, then after any run of any number of replicas
      (crashes, retries, failed removals, `skipPush` included) a rebuild from origin's log equals
      pulling that log. */
  lemma OneWriterEachReindexEqualsPull(n: nat, es: seq<Event>)
    requires OneWriterEach(Run(Start(n), es))
    ensures var log := Flat(HistoryOf(Run(Start(n), es).sh.origin));
      && TombsLast(log)
      && ReindexAll(map[], log) == IngestAll(map[], log)
  {
    RunKeeps(Start(n), es);
    RunKeepsWriters(Start(n), es);
    var s := Run(Start(n), es);
    var log := Flat(HistoryOf(s.sh.origin));
    forall k: nat | k < |log| && log[k].tomb ensures EndsDeleted(log, log[k].id) {
      assert log[k] in SetOf(log) && HasWriter(s, log[k]);
      var j :| 0 <= j < |s.replicas| && log[k] in s.replicas[j].written;
      OwnerEndsDeleted(n, es, j, log, k);
    }
    ReindexEqualsPull(log);
  }

  /** With one writer altogether there is nothing to ask. */
  lemma SingleWriterReindexEqualsPull(es: seq<Event>)
    ensures var log := Flat(HistoryOf(Run(Start(1), es).sh.origin));
      && TombsLast(log)
      && ReindexAll(map[], log) == IngestAll(map[], log)
  {
    RunKeeps(Start(1), es);
    OneWriterEachReindexEqualsPull(1, es);
  }
}
