/**
 The handlers that change the index database: `sync`, `delete`, boot-time indexing of offline rows, and
 the forced rebuild.  Each leaves the database as the replica's corresponding step does, or untouched.

 Embedding, the clock, ids, the retro quality gate and SQLite's success are inputs.
 */
module Stores {
  import opened Wrappers
  import opened L1Log
  import opened Ingest
  import opened Replica

  const MAX_UNFORCED_MATCH: nat := 20
  const RETRO := "retro"

  // ----- folding a near-duplicate retro -----

  predicate LiveRetro(m: Memories, id: Id) {
    id in m && !m[id].deleted && m[id].payload.kind == RETRO
  }

  /** Candidate k is the first live retro, and it and all before it are similar enough. */
  ghost predicate FoldsInto(m: Memories, cs: seq<(Id, real)>, threshold: real, k: nat) {
    && k < |cs| && LiveRetro(m, cs[k].0)
    && (forall j :: 0 <= j <= k ==> cs[j].1 >= threshold)
    && (forall j :: 0 <= j < k ==> !LiveRetro(m, cs[j].0))
  }

  /** Candidates come most similar first, so the scan finds a duplicate whenever there is one. */
  lemma FoldFindsDuplicate(m: Memories, cs: seq<(Id, real)>, threshold: real)
    requires forall i, j :: 0 <= i <= j < |cs| ==> cs[i].1 >= cs[j].1
    ensures (exists k: nat :: FoldsInto(m, cs, threshold, k)) <==>
      exists k: nat :: k < |cs| && LiveRetro(m, cs[k].0) && cs[k].1 >= threshold
  {
    if k: nat :| k < |cs| && LiveRetro(m, cs[k].0) && cs[k].1 >= threshold {
      FirstRetro(m, cs, threshold, k);
    }
  }

  lemma FirstRetro(m: Memories, cs: seq<(Id, real)>, threshold: real, k: nat)
    requires forall i, j :: 0 <= i <= j < |cs| ==> cs[i].1 >= cs[j].1
    requires k < |cs| && LiveRetro(m, cs[k].0) && cs[k].1 >= threshold
    ensures exists i: nat :: FoldsInto(m, cs, threshold, i)
    decreases k
  {
    if j: nat :| j < k && LiveRetro(m, cs[j].0) {
      FirstRetro(m, cs, threshold, j);
    } else {
      assert FoldsInto(m, cs, threshold, k);
    }
  }

  // ----- requests -----

  /** `accepted`: the parameters are valid, the retro gate passed, and the cortex exists. */
  datatype SyncRequest = SyncRequest(
    accepted: bool, id: Id, payload: Payload, embedded: bool,
    candidates: seq<(Id, real)>, threshold: real, committed: bool)

  datatype SyncResult = Refused | Folded(into: Id) | Stored(id: Id)

  /** An empty `id` or `pattern` counts as absent. */
  datatype DeleteRequest = DeleteRequest(
    found: bool, id: string, pattern: string, last: bool, force: bool, committed: bool)

  datatype DeleteResult = DeleteRefused | DeletedAll(count: nat)

  function Selectors(q: DeleteRequest): nat {
    (if q.id != "" then 1 else 0) + (if q.pattern != "" then 1 else 0) + if q.last then 1 else 0
  }

  /** The live rows a delete names; `newest` is what ordering by time finds first. */
  ghost predicate Selects(m: Memories, q: DeleteRequest, like: (string, string) -> bool, newest: Option<Id>, id: Id) {
    && id in m && !m[id].deleted
    && (if q.id != "" then id == q.id
        else if q.pattern != "" then like(m[id].payload.content, q.pattern)
        else newest == Some(id))
  }

  ghost predicate NoRepeats(ids: seq<Id>) {
    forall i, j :: 0 <= i < j < |ids| ==> ids[i] != ids[j]
  }

  // ----- what a delete does -----

  /** Deleting live rows tombstones exactly those rows, and queues one tombstone line each, in order,
      with the row's own content; nothing else changes. */
  lemma {:induction false} DeleteTombstonesAll(sh: Shared, r: Replica, ids: seq<Id>)
    requires NoRepeats(ids) && forall id :: id in ids ==> id in r.memories && !r.memories[id].deleted
    ensures var r' := DoDelete(sh, r, ids).1;
      && r'.memories.Keys == r.memories.Keys
      && (forall id :: id in r.memories ==>
            r'.memories[id] == if id in ids then r.memories[id].(deleted := true) else r.memories[id])
      && |r'.outbox| == |r.outbox| + |ids| && r.outbox <= r'.outbox
      && (forall k :: 0 <= k < |ids| ==>
            r'.outbox[|r.outbox|+k] == OutboxRow(r.nextRow + k, Line(ids[k], r.memories[ids[k]].payload, true)))
      && r'.nextRow == r.nextRow + |ids|
  {
    if ids != [] {
      var init, id := ids[..|ids|-1], ids[|ids|-1];
      assert ids == init + [id] && id in ids && id !in init;
      DeleteTombstonesAll(sh, r, init);
    }
  }

  /** What deleting target k does after the targets before it. */
  lemma DeleteNext(sh: Shared, r: Replica, ids: seq<Id>, k: nat)
    requires k < |ids| && NoRepeats(ids) && forall id :: id in ids ==> id in r.memories && !r.memories[id].deleted
    ensures var (r1, r2, id) := (DoDelete(sh, r, ids[..k]).1, DoDelete(sh, r, ids[..k+1]).1, ids[k]);
      && id in r1.memories
      && r2.memories == r1.memories[id := r1.memories[id].(deleted := true)]
      && r2.outbox == r1.outbox + [OutboxRow(r1.nextRow, Line(id, r1.memories[id].payload, true))]
      && r2.nextRow == r1.nextRow + 1
  {
    var front, id := ids[..k], ids[k];
    assert ids[..k+1] == front + [id] && id in ids;
    assert NoRepeats(front) && id !in front;
    DeleteTombstonesAll(sh, r, front);
  }

  // ----- boot-time indexing -----

  /** The row is live, valid, unknown, and embeds. */
  predicate Inserts(m: Memories, row: OutboxRow, failing: set<nat>) {
    !row.line.tomb && row.line.id !in m && row.line.payload.content != "" && row.rowId !in failing
  }

  /** What one more row adds to the index. */
  lemma IndexOne(m: Memories, rows: seq<OutboxRow>, row: OutboxRow, failing: set<nat>)
    ensures var before := IngestAll(m, Indexable(rows, failing));
      IngestAll(m, Indexable(rows + [row], failing)) ==
        if Inserts(before, row, failing) then before[row.line.id := Row(row.line.payload, false)] else before
  {
    var ls, l := Indexable(rows, failing), row.line;
    if l.tomb || row.rowId in failing {
      assert ls + [] == ls;
    } else {
      assert IngestAll(m, ls + [l]) == IngestLine(IngestAll(m, ls), l);
    }
  }

  /** The index after the rows have been gone through in order. */
  function Indexed(m: Memories, rows: seq<OutboxRow>, failing: set<nat>): Memories {
    if rows == [] then m
    else
      var before, row := Indexed(m, rows[..|rows|-1], failing), rows[|rows|-1];
      if Inserts(before, row, failing) then before[row.line.id := Row(row.line.payload, false)] else before
  }

  /** Boot-time indexing amounts to pulling the queued live lines. */
  lemma {:induction false} IndexedIsIngested(m: Memories, rows: seq<OutboxRow>, failing: set<nat>)
    ensures Indexed(m, rows, failing) == IngestAll(m, Indexable(rows, failing))
  {
    if rows != [] {
      var init := rows[..|rows|-1];
      assert rows == init + [rows[|rows|-1]];
      IndexedIsIngested(m, init, failing);
      IndexOne(m, init, rows[|rows|-1], failing);
    }
  }

  lemma {:induction false} IngestLives(m: Memories, ls: seq<Line>)
    requires forall l :: l in ls ==> !l.tomb && l.payload.content != ""
    ensures forall l :: l in ls ==> l.id in IngestAll(m, ls)
    ensures forall id :: id in m ==> id in IngestAll(m, ls) && IngestAll(m, ls)[id] == m[id]
    ensures forall id :: id in IngestAll(m, ls) && id !in m ==>
      exists l :: l in ls && l.id == id && IngestAll(m, ls)[id] == Row(l.payload, false)
  {
    if ls != [] {
      var init, last := ls[..|ls|-1], ls[|ls|-1];
      assert last in ls && ls == init + [last];
      IngestLives(m, init);
    }
  }

  /** Live lines whose ids are known add nothing. */
  lemma {:induction false} KnownAddNothing(m: Memories, ls: seq<Line>)
    requires forall l :: l in ls ==> !l.tomb && l.id in m
    ensures IngestAll(m, ls) == m
  {
    if ls != [] {
      KnownAddNothing(m, ls[..|ls|-1]);
      assert ls[|ls|-1] in ls;
    }
  }

  /** After a boot at which embedding works, every valid queued line that is no tombstone has its row,
      with its own id and content when the index did not know the id; what the index knew is as it was;
      and indexing again, or pulling any of those lines, adds nothing. */
  lemma BootReplay(m: Memories, rows: seq<OutboxRow>, pulled: seq<Line>)
    requires forall r :: r in rows && !r.line.tomb ==> r.line.payload.content != ""
    requires forall r, r' :: r in rows && r' in rows && r.line.id == r'.line.id ==> r.line.payload == r'.line.payload
    requires forall l :: l in pulled ==> !l.tomb && exists r :: r in rows && r.line == l
    ensures var m' := IngestAll(m, Indexable(rows, {}));
      && (forall r :: r in rows && !r.line.tomb ==>
            && r.line.id in m'
            && m'[r.line.id] == if r.line.id in m then m[r.line.id] else Row(r.line.payload, false))
      && (forall id :: id in m ==> id in m' && m'[id] == m[id])
      && IngestAll(m', Indexable(rows, {})) == m'
      && IngestAll(m', pulled) == m'
  {
    var ls := Indexable(rows, {});
    QueuedLives(rows);
    IngestLives(m, ls);
    var m' := IngestAll(m, ls);
    forall r | r in rows && !r.line.tomb
      ensures r.line.id in m' && m'[r.line.id] == if r.line.id in m then m[r.line.id] else Row(r.line.payload, false)
    {
      assert r.line in ls;
    }
    KnownAddNothing(m', ls);
    KnownAddNothing(m', pulled);
  }

  lemma {:induction false} QueuedLives(rows: seq<OutboxRow>)
    ensures forall l :: l in Indexable(rows, {}) <==> exists r :: r in rows && r.line == l && !l.tomb
  {
    if rows != [] {
      var init, last := rows[..|rows|-1], rows[|rows|-1];
      assert rows == init + [last];
      QueuedLives(init);
      forall l ensures l in Indexable(rows, {}) <==> exists r :: r in rows && r.line == l && !l.tomb {
        if l in Indexable(init, {}) {
          var r :| r in init && r.line == l && !l.tomb;
          assert r in rows;
        }
        if l == last.line { assert last in rows; }
      }
    }
  }

  // ----- a rebuild -----

  /** The lines whose embedding succeeds. */
  function Embedded(ls: seq<Line>, failing: set<nat>): seq<Line> {
    if ls == [] then []
    else Embedded(ls[..|ls|-1], failing) + if |ls| - 1 in failing then [] else [ls[|ls|-1]]
  }

  /** The table after the lines have been gone through in order. */
  function Rebuilt(ls: seq<Line>, failing: set<nat>): Memories {
    if ls == [] then map[]
    else
      var before, l := Rebuilt(ls[..|ls|-1], failing), ls[|ls|-1];
      if |ls| - 1 in failing then before else before[l.id := Row(l.payload, l.tomb)]
  }

  lemma {:induction false} RebuiltIsReindexed(ls: seq<Line>, failing: set<nat>)
    ensures Rebuilt(ls, failing) == ReindexAll(map[], Embedded(ls, failing))
  {
    if ls != [] {
      var init := ls[..|ls|-1];
      RebuiltIsReindexed(init, failing);
      if |ls| - 1 in failing { assert Embedded(init, failing) + [] == Embedded(init, failing); }
    }
  }

  /** No line of the id embeds. */
  ghost predicate NoneEmbeds(ls: seq<Line>, failing: set<nat>, id: Id) {
    forall k: nat :: k < |ls| && ls[k].id == id ==> k in failing
  }

  /** Line k is the last of its id that embeds. */
  ghost predicate LastEmbedded(ls: seq<Line>, failing: set<nat>, id: Id, k: nat) {
    && k < |ls| && ls[k].id == id && k !in failing
    && forall j: nat :: k < j < |ls| && ls[j].id == id ==> j in failing
  }

  ghost predicate EndsEmbeddedDeleted(ls: seq<Line>, failing: set<nat>, id: Id) {
    exists k: nat :: LastEmbedded(ls, failing, id, k) && ls[k].tomb
  }

  lemma {:induction false} RebuiltIsLastEmbedded(ls: seq<Line>, failing: set<nat>, id: Id)
    ensures id in Rebuilt(ls, failing) <==> !NoneEmbeds(ls, failing, id)
    ensures forall k: nat :: LastEmbedded(ls, failing, id, k) ==>
      id in Rebuilt(ls, failing) && Rebuilt(ls, failing)[id] == Row(ls[k].payload, ls[k].tomb)
    ensures id in Rebuilt(ls, failing) ==> exists k: nat :: LastEmbedded(ls, failing, id, k)
  {
    if ls != [] {
      var n := |ls| - 1;
      var init := ls[..n];
      RebuiltIsLastEmbedded(init, failing, id);
      if ls[n].id == id && n !in failing {
        assert LastEmbedded(ls, failing, id, n);
      } else {
        forall k: nat ensures LastEmbedded(ls, failing, id, k) <==> LastEmbedded(init, failing, id, k) {
          OneLineMore(ls, failing, id, k, n);
        }
        if NoneEmbeds(init, failing, id) {
          forall k: nat | k < |ls| && ls[k].id == id ensures k in failing {
            if k < n { assert init[k] == ls[k]; }
          }
        } else {
          var k: nat :| k < n && init[k].id == id && k !in failing;
          assert ls[k] == init[k];
        }
      }
    }
  }

  lemma OneLineMore(ls: seq<Line>, failing: set<nat>, id: Id, k: nat, n: nat)
    requires |ls| == n + 1 && (ls[n].id != id || n in failing)
    ensures LastEmbedded(ls, failing, id, k) <==> LastEmbedded(ls[..n], failing, id, k)
  {
    var init := ls[..n];
    assert forall j: nat :: j < n ==> init[j] == ls[j];
    if LastEmbedded(init, failing, id, k) {
      forall j: nat | k < j < |ls| && ls[j].id == id ensures j in failing {
        if j < n { assert init[j].id == id; }
      }
    }
    if LastEmbedded(ls, failing, id, k) {
      forall j: nat | k < j < n && init[j].id == id ensures j in failing { assert ls[j].id == id; }
    }
  }

  /** What the failures may not touch: of a deleted entry no line embeds or the last that does is a
      tombstone, and of any other entry some line embeds. */
  ghost predicate FailuresHarmless(ls: seq<Line>, failing: set<nat>, id: Id) {
    if Tombed(SetOf(ls), id) then NoneEmbeds(ls, failing, id) || EndsEmbeddedDeleted(ls, failing, id)
    else !NoneEmbeds(ls, failing, id)
  }

  lemma LiveAlikeIff(ls: seq<Line>, failing: set<nat>, id: Id)
    requires Readable(SetOf(ls)) && id in Ids(SetOf(ls))
    ensures FailuresHarmless(ls, failing, id) <==>
      (id in LiveIds(Rebuilt(ls, failing)) <==> id in LiveIds(IngestAll(map[], ls)))
  {
    RebuiltIsLastEmbedded(ls, failing, id);
    assert Explains(map[], {});
    IngestAllExplains(map[], ls, {});
    assert {} + SetOf(ls) == SetOf(ls);
    if id in Rebuilt(ls, failing) {
      var k: nat :| LastEmbedded(ls, failing, id, k);
      assert ls[k] in SetOf(ls);
      assert EndsEmbeddedDeleted(ls, failing, id) <==> ls[k].tomb by {
        if EndsEmbeddedDeleted(ls, failing, id) {
          var j: nat :| LastEmbedded(ls, failing, id, j) && ls[j].tomb;
          assert j == k;
        }
      }
    }
  }

  /** A forced rebuild in which embeddings fail keeps live what pulling keeps live exactly when the
      failures are harmless for every entry; so it may bring a deleted entry back, or lose a live one. */
  lemma RebuildAgreesIff(ls: seq<Line>, failing: set<nat>)
    requires Readable(SetOf(ls))
    ensures LiveIds(ReindexAll(map[], Embedded(ls, failing))) == LiveIds(IngestAll(map[], ls)) <==>
      forall id :: id in Ids(SetOf(ls)) ==> FailuresHarmless(ls, failing, id)
  {
    RebuiltIsReindexed(ls, failing);
    var r, p := Rebuilt(ls, failing), IngestAll(map[], ls);
    assert Explains(map[], {});
    IngestAllExplains(map[], ls, {});
    assert {} + SetOf(ls) == SetOf(ls);
    forall id | id in r ensures id in Ids(SetOf(ls)) {
      RebuiltIsLastEmbedded(ls, failing, id);
      var k: nat :| LastEmbedded(ls, failing, id, k);
      assert ls[k] in SetOf(ls);
    }
    forall id | id in Ids(SetOf(ls))
      ensures FailuresHarmless(ls, failing, id) <==> (id in LiveIds(r) <==> id in LiveIds(p))
    {
      LiveAlikeIff(ls, failing, id);
    }
  }

  /** Some queued line brings the entry. */
  ghost predicate QueuedLive(rows: seq<OutboxRow>, id: Id) {
    exists r :: r in rows && r.line.id == id && !r.line.tomb
  }

  /** After a rebuild and a boot that indexes the queued rows, an entry is live exactly when its last line
      in the log is no tombstone, or the log lacks it and it is queued.  A queued tombstone plays no
      part: an entry that was deleted here but not yet drained is back until its tombstone is pulled. */
  lemma RebuildThenBootLiveIff(log: seq<Line>, rows: seq<OutboxRow>, id: Id, t: Line)
    requires Readable(RowLines(rows)) && t.id == id && t.tomb && t.payload.content != ""
    ensures var m := IngestAll(ReindexAll(map[], log), Indexable(rows, {}));
      && (id in LiveIds(m) <==>
            || (exists k: nat :: LastOf(log, id, k) && !log[k].tomb)
            || ((forall k: nat :: !LastOf(log, id, k)) && QueuedLive(rows, id)))
      && id !in LiveIds(IngestLine(m, t))
  {
    var rebuilt, ls := ReindexAll(map[], log), Indexable(rows, {});
    QueuedLives(rows);
    forall l | l in ls ensures l.payload.content != "" {
      var r :| r in rows && r.line == l && !l.tomb;
      assert l in RowLines(rows);
    }
    IngestLives(rebuilt, ls);
    ReindexIsLast(log, id);
    if QueuedLive(rows, id) {
      var r :| r in rows && r.line.id == id && !r.line.tomb;
      assert r.line in ls;
    }
  }

  // ----- the database -----

  class Store {
    var memories: Memories
    var outbox: seq<OutboxRow>
    var nextRow: nat
    var occurrences: map<Id, nat>

    constructor ()
      ensures memories == map[] && outbox == [] && nextRow == 1 && occurrences == map[]
    {
      memories, outbox, nextRow, occurrences := map[], [], 1, map[];
    }

    ghost predicate Matches(r: Replica)
      reads this
    {
      r.memories == memories && r.outbox == outbox && r.nextRow == nextRow
    }

    /** The first live retro above the threshold gets one occurrence more. */
    method FoldRetroNearDuplicate(cs: seq<(Id, real)>, threshold: real) returns (into: Option<Id>)
      modifies this`occurrences
      ensures into.Some? <==> exists k: nat :: FoldsInto(memories, cs, threshold, k)
      ensures into.Some? ==> exists k: nat :: FoldsInto(memories, cs, threshold, k) && cs[k].0 == into.value
      ensures occurrences == if into.None? then old(occurrences)
        else old(occurrences)[into.value :=
          (if into.value in old(occurrences) then old(occurrences)[into.value] else 1) + 1]
    {
      for k := 0 to |cs|
        invariant occurrences == old(occurrences)
        invariant forall j :: 0 <= j < k ==> cs[j].1 >= threshold && !LiveRetro(memories, cs[j].0)
      {
        var (id, similarity) := cs[k];
        if similarity < threshold {
          assert forall j: nat :: FoldsInto(memories, cs, threshold, j) ==> cs[k].1 >= threshold;
          return None;
        }
        if LiveRetro(memories, id) {
          assert FoldsInto(memories, cs, threshold, k);
          occurrences := occurrences[id := (if id in occurrences then occurrences[id] else 1) + 1];
          assert FoldsInto(memories, cs, threshold, k);
          return Some(id);
        }
      }
      into := None;
    }

    method HandleSync(q: SyncRequest, ghost sh: Shared, ghost r: Replica) returns (result: SyncResult)
      requires Matches(r) && (q.accepted ==> q.payload.content != "")
      modifies this
      ensures result.Refused? ==> Matches(r) && occurrences == old(occurrences)
      ensures result.Folded? ==>
        && Matches(r) && q.accepted && q.embedded && q.payload.kind == "retro"
        && result.into in memories && !memories[result.into].deleted
        && memories[result.into].payload.kind == "retro"
        && occurrences == old(occurrences)[result.into :=
             (if result.into in old(occurrences) then old(occurrences)[result.into] else 1) + 1]
        && exists k: nat :: FoldsInto(r.memories, q.candidates, q.threshold, k) && q.candidates[k].0 == result.into
      ensures result.Stored? ==>
        && (Writable(sh, q.id, q.payload) ==> Matches(DoSync(sh, r, q.id, q.payload).1))
        && outbox == r.outbox + [OutboxRow(r.nextRow, Line(q.id, q.payload, false))]
        && memories == IngestLine(r.memories, Line(q.id, q.payload, false))
        && nextRow == r.nextRow + 1
      ensures result.Refused? <==>
        || !q.accepted || !q.embedded
        || (!q.committed && !(q.payload.kind == RETRO &&
              exists k: nat :: FoldsInto(r.memories, q.candidates, q.threshold, k)))
      ensures result.Stored? ==> result.id == q.id
      ensures result.Stored? ==>
        occurrences == if q.payload.kind == RETRO then old(occurrences)[q.id := 1] else old(occurrences)
      ensures result.Stored? && q.payload.kind == RETRO ==>
        !exists k: nat :: FoldsInto(r.memories, q.candidates, q.threshold, k)
    {
      if !q.accepted || !q.embedded { return Refused; }
      if q.payload.kind == RETRO {
        var into := FoldRetroNearDuplicate(q.candidates, q.threshold);
        if into.Some? { return Folded(into.value); }
      }
      if !q.committed { return Refused; }
      var line := Line(q.id, q.payload, false);
      memories := if q.id in memories then memories else memories[q.id := Row(q.payload, false)];
      outbox := outbox + [OutboxRow(nextRow, line)];
      nextRow := nextRow + 1;
      if q.payload.kind == RETRO { occurrences := occurrences[q.id := 1]; }
      result := Stored(q.id);
    }

    /** `targets` is what the select statement returned. */
    method HandleDelete(q: DeleteRequest, like: (string, string) -> bool, newest: Option<Id>, targets: seq<Id>,
                        ghost sh: Shared, ghost r: Replica)
      returns (result: DeleteResult)
      requires Matches(r) && NoRepeats(targets)
      requires forall id :: id in targets <==> Selects(memories, q, like, newest, id)
      modifies this
      ensures result.DeleteRefused? <==>
        || !q.found
        || (q.id == "" && q.pattern == "" && !q.last)
        || (q.id != "" && (q.pattern != "" || q.last)) || (q.pattern != "" && q.last)
        || (targets != [] && ((q.pattern != "" && |targets| > 20 && !q.force) || !q.committed))
      ensures result.DeleteRefused? ==> Matches(r)
      ensures result.DeletedAll? ==> result.count == |targets| && Matches(DoDelete(sh, r, targets).1)
      ensures result.DeletedAll? ==> forall id :: id in memories && memories[id].deleted <==>
        && id in r.memories
        && (r.memories[id].deleted
            || (q.id != "" && id == q.id)
            || (q.pattern != "" && like(r.memories[id].payload.content, q.pattern))
            || (q.last && newest == Some(id)))
    {
      DeleteTombstonesAll(sh, r, targets);
      if !q.found || Selectors(q) != 1 { return DeleteRefused; }
      if targets == [] { return DeletedAll(0); }
      if q.pattern != "" && |targets| > MAX_UNFORCED_MATCH && !q.force { return DeleteRefused; }
      if !q.committed { return DeleteRefused; }
      DeleteTargets(targets, sh, r);
      result := DeletedAll(|targets|);
    }

    method DeleteTargets(targets: seq<Id>, ghost sh: Shared, ghost r: Replica)
      requires Matches(r) && NoRepeats(targets)
      requires forall id :: id in targets ==> id in memories && !memories[id].deleted
      modifies this`memories, this`outbox, this`nextRow
      ensures Matches(DoDelete(sh, r, targets).1)
    {
      for k := 0 to |targets|
        invariant Matches(DoDelete(sh, r, targets[..k]).1)
      {
        DeleteNext(sh, r, targets, k);
        var id := targets[k];
        outbox := outbox + [OutboxRow(nextRow, Line(id, memories[id].payload, true))];
        nextRow := nextRow + 1;
        memories := memories[id := memories[id].(deleted := true)];
      }
      assert targets[..|targets|] == targets;
    }

    /** Every queued line that is no tombstone and whose id is unknown gets its row. */
    method IndexPendingOutboxEntries(failing: set<nat>, ghost r: Replica) returns (indexed: nat)
      requires Matches(r)
      modifies this`memories
      ensures Matches(Absorb(r, Indexable(r.outbox, failing)))
      ensures indexed == |memories| - |old(memories)|
    {
      indexed := 0;
      for k := 0 to |outbox|
        invariant memories == Indexed(r.memories, outbox[..k], failing)
        invariant indexed == |memories| - |r.memories|
      {
        assert outbox[..k+1][..k] == outbox[..k];
        var inserted := IndexOneRow(outbox[k], failing);
        if inserted { indexed := indexed + 1; }
      }
      assert outbox[..|outbox|] == outbox;
      IndexedIsIngested(r.memories, outbox, failing);
    }

    /** Tombstones, known ids, invalid lines and failing embeddings are skipped. */
    method IndexOneRow(row: OutboxRow, failing: set<nat>) returns (inserted: bool)
      modifies this`memories
      ensures memories == if Inserts(old(memories), row, failing)
        then old(memories)[row.line.id := Row(row.line.payload, false)] else old(memories)
      ensures inserted == Inserts(old(memories), row, failing)
      ensures |memories| == |old(memories)| + if inserted then 1 else 0
    {
      if row.line.tomb { return false; }
      if row.line.id in memories { return false; }
      if row.line.payload.content == "" { return false; }
      if row.rowId in failing { return false; }
      memories := memories[row.line.id := Row(row.line.payload, false)];
      inserted := true;
    }

    /** Drops every row and replays the log, the last line of an id winning; a line that fails to embed
        is skipped. */
    method ReindexForced(ls: seq<Line>, failing: set<nat>) returns (total: nat, failures: nat)
      modifies this`memories
      ensures memories == ReindexAll(map[], Embedded(ls, failing))
      ensures total == |ls| && failures == |ls| - |Embedded(ls, failing)|
    {
      memories := map[];
      total, failures := 0, 0;
      for k := 0 to |ls|
        invariant memories == Rebuilt(ls[..k], failing)
        invariant total == k && failures == k - |Embedded(ls[..k], failing)|
      {
        assert ls[..k+1][..k] == ls[..k];
        total := total + 1;
        if k in failing {
          failures := failures + 1;
        } else {
          memories := memories[ls[k].id := Row(ls[k].payload, ls[k].tomb)];
        }
      }
      assert ls[..|ls|] == ls;
      RebuiltIsReindexed(ls, failing);
    }
  }
}
