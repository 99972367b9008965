/**
 An undisturbed drain delivers, and three short runs that show where the promises stop:
 a `skipPush` drain followed by a forced reset loses an entry; one failed removal makes a live
 line follow a tombstone in the log; and with a second writer it resurrects a deleted entry on
 the next rebuild.
 */
module Scenarios {
  import opened Wrappers
  import opened L1Log
  import opened Ingest
  import opened Replica
  import opened Replication
  import opened Runs

  /** The base system with replica i and the shared state as given. */
  function With(base: System, i: nat, sh: Shared, r: Replica): System
    requires i < |base.replicas|
  {
    System(sh, base.replicas[i := r])
  }

  /** `es` leads from the start of n replicas to `s`. */
  ghost predicate Leads(n: nat, es: seq<Event>, s: System) {
    s == Run(Start(n), es) && |s.replicas| == n
  }

  lemma Do(n: nat, es: seq<Event>, base: System, i: nat, sh: Shared, r: Replica, a: Action,
           sh': Shared, r': Replica)
    returns (es': seq<Event>)
    requires i < n == |base.replicas| && Leads(n, es, With(base, i, sh, r))
    requires Act(sh, r, a) == (sh', r')
    ensures Leads(n, es', With(base, i, sh', r'))
  {
    es' := es + [Event(i, a)];
    assert es'[..|es'|-1] == es;
    assert base.replicas[i := r][i := r'] == base.replicas[i := r'];
  }

  function Landing(ref: Option<History>, rows: seq<OutboxRow>): Option<History> {
    Some(HistoryOf(ref) + [Commit(0, LinesOfRows(rows))])
  }

  /** Nothing keeps this replica's next drain from landing. */
  ghost predicate ReadyToDrain(sh: Shared, r: Replica) {
    && RowsOrdered(r) && r.drain.Idle? && r.outbox != []
    && IsPrefixOf(r.local, sh.origin) && (r.local.None? ==> sh.origin.None?)
  }

  lemma UndisturbedFetch(n: nat, es: seq<Event>, base: System, i: nat, sh: Shared, r: Replica)
    returns (es': seq<Event>)
    requires i < n == |base.replicas| && Leads(n, es, With(base, i, sh, r)) && ReadyToDrain(sh, r)
    ensures Leads(n, es', With(base, i, sh,
      r.(tracking := sh.origin, drain := Running(r.outbox, false, false, 1, Appending))))
  {
    var d := Running(r.outbox, false, false, 1, Preflight);
    var fetched := r.(tracking := sh.origin);
    es' := Do(n, es, base, i, sh, r, DrainStart(false), sh, r.(drain := d));
    es' := Do(n, es', base, i, sh, r.(drain := d), PreflightFetch(true, 0),
              sh, fetched.(drain := d.(phase := Fetching)));
    es' := Do(n, es', base, i, sh, fetched.(drain := d.(phase := Fetching)), Fetch(true),
              sh, fetched.(drain := d.(phase := Appending)));
  }

  /** A drain that nothing interferes with puts the whole outbox on origin, in order, and empties
      it; it keeps the rows only when the removal fails. */
  lemma UndisturbedDrain(n: nat, es: seq<Event>, base: System, i: nat, sh: Shared, r: Replica, removed: bool)
    returns (es': seq<Event>)
    requires i < n == |base.replicas| && Leads(n, es, With(base, i, sh, r)) && ReadyToDrain(sh, r)
    ensures var tip := Landing(sh.origin, r.outbox);
      Leads(n, es', With(base, i, sh.(origin := tip),
        r.(local := tip, tracking := tip, outbox := if removed then [] else r.outbox)))
  {
    var tip, rows := Landing(sh.origin, r.outbox), r.outbox;
    var d := Running(rows, false, false, 1, Preflight);
    var fetched := r.(tracking := sh.origin);
    var landed := r.(local := tip, tracking := tip);
    es' := UndisturbedFetch(n, es, base, i, sh, r);
    AppendsOnOrigin(sh, fetched.(drain := d.(phase := Appending)));
    es' := Do(n, es', base, i, sh, fetched.(drain := d.(phase := Appending)), Append(0),
              sh, fetched.(local := tip, drain := d.(phase := Pushing)));
    es' := Do(n, es', base, i, sh, fetched.(local := tip, drain := d.(phase := Pushing)), Push(Landed),
              sh.(origin := tip), landed.(drain := d.(phase := Removing)));
    RemovalIsSuffix(rows, |rows|);
    assert rows[..|rows|] == rows && rows[|rows|..] == [];
    es' := Do(n, es', base, i, sh.(origin := tip), landed.(drain := d.(phase := Removing)),
              Remove(removed), sh.(origin := tip), landed.(outbox := if removed then [] else rows));
  }

  lemma AppendsOnOrigin(sh: Shared, r: Replica)
    requires At(r, Appending) && r.tracking == sh.origin && !r.drain.skipPush
    requires IsPrefixOf(r.local, sh.origin) && (r.local.None? ==> sh.origin.None?)
    ensures DoAppend(r, 0) ==
      r.(local := Landing(sh.origin, r.drain.rows), drain := r.drain.(phase := Pushing))
  {
  }

  const HELLO := Payload("2026-01-01", "ann", "memory", "hello")
  const OTHER := Payload("2026-01-02", "bob", "memory", "other")
  const LIVE := Line("a", HELLO, false)
  const DEAD := Line("a", HELLO, true)

  lemma OneRow(r: OutboxRow)
    ensures LinesOfRows([r]) == [r.line]
  {
    assert [r][..0] == [];
  }

  lemma TwoRows(a: OutboxRow, b: OutboxRow)
    ensures LinesOfRows([a, b]) == [a.line, b.line]
  {
    assert [a, b][..1] == [a];
    OneRow(a);
  }

  lemma FlatTwo(c: Commit, d: Commit)
    ensures Flat([c, d]) == c.lines + d.lines
  {
    FlatAppend([], c);
    FlatAppend([c], d);
    assert [] + [c] == [c] && [c] + [d] == [c, d];
  }

  lemma FlatOne(c: Commit)
    ensures Flat([c]) == c.lines && Lines([c]) == SetOf(c.lines)
  {
    assert [c][..0] == [];
  }

  /** What the only writer's replica looks like once it has written `l` as row k. */
  function Wrote(r: Replica, k: nat, l: Line): Replica {
    r.(memories := r.memories[l.id := Row(l.payload, l.tomb)], outbox := r.outbox + [OutboxRow(k, l)],
       nextRow := k + 1, seen := r.seen + {l}, written := r.written + [l])
  }

  lemma DeleteIs(sh: Shared, r: Replica, l: Line)
    requires l.tomb && l.id in r.memories && r.memories[l.id] == Row(l.payload, false)
    ensures Act(sh, r, Delete([l.id])) == (sh.(ever := sh.ever + {l}), Wrote(r, r.nextRow, l))
  {
    assert [l.id][..0] == [];
    assert DoDelete(sh, r, []) == (sh, r);
    assert DoDelete(sh, r, [l.id]) == DeleteOne(sh, r, l.id);
    assert Line(l.id, r.memories[l.id].payload, true) == l;
  }

  const NOBODY := Shared(None, {})
  const FRESH := FreshReplica()
  const WITH_LIVE := Shared(None, {LIVE})

  lemma FirstWrite(n: nat) returns (es: seq<Event>)
    requires 0 < n
    ensures |Start(n).replicas| == n
    ensures Leads(n, es, With(Start(n), 0, WITH_LIVE, Wrote(FRESH, 1, LIVE)))
  {
    assert Start(n).replicas[0 := FRESH] == Start(n).replicas;
    assert {} + {LIVE} == {LIVE};
    es := Do(n, [], Start(n), 0, NOBODY, FRESH, Sync("a", HELLO), WITH_LIVE, Wrote(FRESH, 1, LIVE));
  }

  /** The strict shape "no live line follows a tombstone of its id" already fails for one writer:
      write, delete, drain with a failed removal, drain again. */
  lemma LiveLineFollowsTombstone()
    ensures exists es :: Flat(HistoryOf(Run(Start(1), es).sh.origin)) == [LIVE, DEAD, LIVE, DEAD]
  {
    var b, r1 := Start(1), Wrote(FRESH, 1, LIVE);
    var r2, sh := Wrote(r1, 2, DEAD), WITH_LIVE.(ever := {LIVE, DEAD});
    var es := FirstWrite(1);
    DeleteIs(WITH_LIVE, r1, DEAD);
    assert WITH_LIVE.ever + {DEAD} == {LIVE, DEAD};
    es := Do(1, es, b, 0, WITH_LIVE, r1, Delete(["a"]), sh, r2);
    var c := Commit(0, [LIVE, DEAD]);
    assert r2.outbox == [OutboxRow(1, LIVE), OutboxRow(2, DEAD)];
    TwoRows(r2.outbox[0], r2.outbox[1]);
    es := UndisturbedDrain(1, es, b, 0, sh, r2, false);
    assert [] + [c] == [c] && [c] + [c] == [c, c];
    var tip := Some([c]);
    es := UndisturbedDrain(1, es, b, 0, sh.(origin := tip), r2.(local := tip, tracking := tip), true);
    FlatTwo(c, c);
  }

  lemma ThreeLines(x: Line, y: Line, z: Line)
    ensures ReindexAll(map[], [x, y, z]) ==
      ReindexLine(ReindexLine(ReindexLine(map[], x), y), z)
    ensures IngestAll(map[], [x, y, z]) == IngestLine(IngestLine(IngestLine(map[], x), y), z)
  {
    assert [x, y, z][..2] == [x, y] && [x, y][..1] == [x] && [x][..0] == [];
    assert ReindexAll(map[], [x]) == ReindexLine(map[], x);
    assert IngestAll(map[], [x]) == IngestLine(map[], x);
  }

  /** One writer's failed removal and another's delete: the entry everybody deleted comes back on
      the next rebuild, although pulling the same log keeps it deleted. */
  lemma RebuildResurrects()
    ensures exists es :: var log := Flat(HistoryOf(Run(Start(2), es).sh.origin));
      && log == [LIVE, DEAD, LIVE]
      && "a" in LiveIds(ReindexAll(map[], log))
      && "a" !in LiveIds(IngestAll(map[], log))
  {
    var c, d, row := Commit(0, [LIVE]), Commit(0, [DEAD]), OutboxRow(1, LIVE);
    var es := FirstWrite(2);
    var r1 := Wrote(FRESH, 1, LIVE);
    assert r1.outbox == [row];
    OneRow(row);
    es := UndisturbedDrain(2, es, Start(2), 0, WITH_LIVE, r1, false);
    assert [] + [c] == [c];
    var r2 := r1.(local := Some([c]), tracking := Some([c]));
    var b1 := With(Start(2), 0, WITH_LIVE.(origin := Some([c])), r2);
    var other;
    es, other := OtherDeletes(es, b1, c, d);
    var b2 := b1.(replicas := b1.replicas[1 := other]);
    var sh2 := Shared(Some([c, d]), {LIVE, DEAD});
    assert With(b2, 0, sh2, r2) == With(b1, 1, sh2, other);
    es := UndisturbedDrain(2, es, b2, 0, sh2, r2, true);
    FlatTwo(c, d);
    FlatAppend([c, d], c);
    assert Flat([c, d] + [c]) == [LIVE, DEAD, LIVE];
    ThreeLines(LIVE, DEAD, LIVE);
  }

  /** The second replica checks the branch out, pulls the entry, deletes it and drains. */
  lemma OtherDeletes(es: seq<Event>, base: System, c: Commit, d: Commit)
    returns (es': seq<Event>, other: Replica)
    requires Leads(2, es, base) && base.replicas[1] == FRESH
    requires c == Commit(0, [LIVE]) && d == Commit(0, [DEAD])
    requires base.sh == WITH_LIVE.(origin := Some([c]))
    ensures Leads(2, es', With(base, 1, Shared(Some([c, d]), {LIVE, DEAD}), other))
  {
    var sh, tip := base.sh, Some([c]);
    assert base.replicas[1 := FRESH] == base.replicas;
    var r1 := FRESH.(tracking := tip);
    var r2 := r1.(local := tip);
    var r3 := r2.(memories := map["a" := Row(HELLO, false)], seen := {LIVE});
    var r4 := Wrote(r3, 1, DEAD);
    var sh4 := sh.(ever := {LIVE, DEAD});
    es' := Do(2, es, base, 1, sh, FRESH, PullFetch, sh, r1);
    es' := Do(2, es', base, 1, sh, r1, Checkout, sh, r2);
    FlatOne(c);
    assert Absorb(r2, [LIVE]) == r3 by {
      assert [LIVE][..0] == [];
      assert IngestAll(map[], [LIVE]) == IngestLine(map[], LIVE);
    }
    es' := Do(2, es', base, 1, sh, r2, Pull([LIVE]), sh, r3);
    DeleteIs(sh, r3, DEAD);
    assert sh.ever + {DEAD} == {LIVE, DEAD};
    es' := Do(2, es', base, 1, sh, r3, Delete(["a"]), sh4, r4);
    assert r4.outbox == [OutboxRow(1, DEAD)];
    OneRow(OutboxRow(1, DEAD));
    es' := UndisturbedDrain(2, es', base, 1, sh4, r4, true);
    assert [c] + [d] == [c, d];
    var tip2 := Some([c, d]);
    other := r4.(local := tip2, tracking := tip2, outbox := []);
  }

  const OTHERS := Line("b", OTHER, false)
  const LATER := Line("x", OTHER, false)

  /** A `skipPush` drain, then an ordinary drain of a clone that is behind: the forced reset throws
      the entry away and nothing holds it any more except the writer's own index. */
  lemma SkipPushLoses()
    ensures exists es :: var s := Run(Start(2), es);
      && |s.replicas| == 2
      && LIVE in s.replicas[0].written
      && LIVE !in RowLines(s.replicas[0].outbox)
      && LIVE !in RefLines(s.sh.origin)
      && LIVE !in RefLines(s.replicas[0].local)
  {
    var es := SkippedEntry();
    var b := With(Start(2), 0, WITH_LIVE, SkippedReplica());
    var o;
    es, o := OtherDrains(es, b);
    var tip := Some([Commit(0, [OTHERS])]);
    var r;
    es, r := ResetDropsIt(es, With(b, 1, Shared(tip, {LIVE, OTHERS}), o), tip);
    FlatOne(Commit(0, [OTHERS]));
  }

  /** The second replica drains an entry of its own. */
  lemma OtherDrains(es: seq<Event>, base: System) returns (es': seq<Event>, other: Replica)
    requires Leads(2, es, base) && base.replicas[1] == FRESH && base.sh == WITH_LIVE
    ensures Leads(2, es', With(base, 1, Shared(Some([Commit(0, [OTHERS])]), {LIVE, OTHERS}), other))
  {
    var sh, r, tip := WITH_LIVE.(ever := {LIVE, OTHERS}), Wrote(FRESH, 1, OTHERS), Some([Commit(0, [OTHERS])]);
    assert base.replicas[1 := FRESH] == base.replicas;
    assert WITH_LIVE.ever + {OTHERS} == {LIVE, OTHERS};
    es' := Do(2, es, base, 1, WITH_LIVE, FRESH, Sync("b", OTHER), sh, r);
    assert r.outbox == [OutboxRow(1, OTHERS)];
    OneRow(OutboxRow(1, OTHERS));
    es' := UndisturbedDrain(2, es', base, 1, sh, r, true);
    assert [] + [Commit(0, [OTHERS])] == [Commit(0, [OTHERS])];
    other := r.(local := tip, tracking := tip, outbox := []);
  }

  function SkippedReplica(): Replica {
    FRESH.(memories := map["a" := Row(HELLO, false)], nextRow := 2, seen := {LIVE}, written := [LIVE],
           local := Some([Commit(0, [LIVE])]), skipped := {LIVE})
  }

  lemma SkippedEntry() returns (es: seq<Event>)
    ensures Leads(2, es, With(Start(2), 0, WITH_LIVE, SkippedReplica()))
  {
    var b, sh, r := Start(2), WITH_LIVE, Wrote(FRESH, 1, LIVE);
    var row, c := OutboxRow(1, LIVE), Commit(0, [LIVE]);
    es := FirstWrite(2);
    assert r.outbox == [row];
    OneRow(row);
    var d := Running([row], true, false, 1, Preflight);
    es := Do(2, es, b, 0, sh, r, DrainStart(true), sh, r.(drain := d));
    es := Do(2, es, b, 0, sh, r.(drain := d), PreflightFetch(true, 0), sh, r.(drain := d.(phase := Fetching)));
    es := Do(2, es, b, 0, sh, r.(drain := d.(phase := Fetching)), Fetch(true),
             sh, r.(drain := d.(phase := Appending)));
    assert [] + [c] == [c];
    es := Do(2, es, b, 0, sh, r.(drain := d.(phase := Appending)), Append(0), sh, CommittedLocally());
    SkippedRemoval();
    es := Do(2, es, b, 0, sh, CommittedLocally(), Remove(true), sh, SkippedReplica());
  }

  function CommittedLocally(): Replica {
    Wrote(FRESH, 1, LIVE).(
      local := Some([Commit(0, [LIVE])]), drain := Running([OutboxRow(1, LIVE)], true, false, 1, Removing))
  }

  lemma SkippedRemoval()
    ensures DoRemove(CommittedLocally(), true) == SkippedReplica()
  {
    assert {} + {LIVE} == {LIVE} && [] + [LIVE] == [LIVE];
    assert [] + [OutboxRow(1, LIVE)] == [OutboxRow(1, LIVE)];
    assert map[]["a" := Row(HELLO, false)] == map["a" := Row(HELLO, false)];
  }

  /** The clone writes again and drains: it is one commit behind, so the drain resets. */
  lemma ResetDropsIt(es: seq<Event>, base: System, tip: Option<History>)
    returns (es': seq<Event>, r': Replica)
    requires tip == Some([Commit(0, [OTHERS])])
    requires |base.replicas| == 2 && base.replicas[0] == SkippedReplica()
    requires base.sh == Shared(tip, {LIVE, OTHERS}) && Leads(2, es, base)
    ensures Leads(2, es', With(base, 0, Shared(tip, {LIVE, OTHERS, LATER}), r'))
    ensures r'.written == [LIVE, LATER] && RowLines(r'.outbox) == {LATER} && r'.local == tip
  {
    var s0, sh, row := SkippedReplica(), Shared(tip, {LIVE, OTHERS, LATER}), OutboxRow(2, LATER);
    var r := Wrote(s0, 2, LATER);
    assert base.replicas[0 := s0] == base.replicas;
    assert base.sh.ever + {LATER} == {LIVE, OTHERS, LATER};
    es' := Do(2, es, base, 0, base.sh, s0, Sync("x", OTHER), sh, r);
    es', r' := FarBehindDrainResets(es', base, sh, r, tip);
    assert r.outbox == [row];
  }

  lemma FarBehindDrainResets(es: seq<Event>, base: System, sh: Shared, r: Replica, tip: Option<History>)
    returns (es': seq<Event>, r': Replica)
    requires |base.replicas| == 2 && Leads(2, es, With(base, 0, sh, r))
    requires r.drain.Idle? && r.outbox != [] && sh.origin == tip && tip.Some?
    requires Behind(r.local, tip) == Some(1)
    ensures Leads(2, es', With(base, 0, sh, r'))
    ensures r'.outbox == r.outbox && r'.written == r.written && r'.local == tip
  {
    var d := Running(r.outbox, false, false, 1, Preflight);
    var r1 := r.(tracking := tip, drain := d.(startWithReset := true, phase := Fetching));
    var r2 := r1.(drain := r1.drain.(phase := Resetting));
    es' := Do(2, es, base, 0, sh, r, DrainStart(false), sh, r.(drain := d));
    es' := Do(2, es', base, 0, sh, r.(drain := d), PreflightFetch(true, 1), sh, r1);
    es' := Do(2, es', base, 0, sh, r1, Fetch(true), sh, r2);
    r' := DoReset(r2);
    es' := Do(2, es', base, 0, sh, r2, Reset, sh, r');
  }
}
