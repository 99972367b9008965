/**
 L2: the `memories` table of one cortex, and the two ways L1 lines are folded into it.

 - The pull loop's `ingestEntry` inserts an unknown id once and afterwards only applies
   tombstones to it (a tombstone, once seen, wins).
 - `reindex` replaces the row of an id by every line of that id (the last line wins).

 The module proves that pulling is insensitive to order, repetition and batching, and says
 exactly when a rebuild from the log agrees with it.
 */
module Ingest {
  import opened L1Log

  datatype Row = Row(payload: Payload, deleted: bool)

  type Memories = map<Id, Row>

  // ----- the two readers, one line at a time -----

  function IngestLine(m: Memories, l: Line): Memories {
    if l.payload.content == "" then m
    else if l.id in m then
      if l.tomb && !m[l.id].deleted then m[l.id := m[l.id].(deleted := true)] else m
    else m[l.id := Row(l.payload, l.tomb)]
  }

  function IngestAll(m: Memories, ls: seq<Line>): Memories {
    if ls == [] then m else IngestLine(IngestAll(m, ls[..|ls|-1]), ls[|ls|-1])
  }

  function ReindexLine(m: Memories, l: Line): Memories {
    m[l.id := Row(l.payload, l.tomb)]
  }

  function ReindexAll(m: Memories, ls: seq<Line>): Memories {
    if ls == [] then m else ReindexLine(ReindexAll(m, ls[..|ls|-1]), ls[|ls|-1])
  }

  function LiveIds(m: Memories): set<Id> {
    set id | id in m && !m[id].deleted
  }

  // ----- what a table that has absorbed a set of lines looks like -----

  function Ids(ls: set<Line>): set<Id> {
    set l | l in ls :: l.id
  }

  ghost predicate Tombed(ls: set<Line>, id: Id) {
    exists l :: l in ls && l.id == id && l.tomb
  }

  ghost predicate Carries(ls: set<Line>, id: Id, p: Payload) {
    exists l :: l in ls && l.id == id && l.payload == p
  }

  /** The table says what the lines say: same ids, their contents, deleted exactly when some
      line of the id is a tombstone. */
  ghost predicate Explains(m: Memories, ls: set<Line>) {
    && m.Keys == Ids(ls)
    && (forall id :: id in m ==> Carries(ls, id, m[id].payload))
    && (forall id :: id in m ==> (m[id].deleted <==> Tombed(ls, id)))
  }

  /** Lines that agree on content determine the table. */
  lemma ExplainsUnique(a: Memories, b: Memories, ls: set<Line>)
    requires Explains(a, ls) && Explains(b, ls) && Agree(ls)
    ensures a == b
  {
    forall id | id in a
      ensures id in b && a[id] == b[id]
    {
      assert id in Ids(ls);
      var x :| x in ls && x.id == id && x.payload == a[id].payload;
      var y :| y in ls && y.id == id && y.payload == b[id].payload;
      assert x.payload == y.payload;
    }
  }

  lemma IngestLineExplains(m: Memories, l: Line, ls: set<Line>)
    requires Explains(m, ls) && l.payload.content != ""
    ensures Explains(IngestLine(m, l), ls + {l})
  {
    var m' := IngestLine(m, l);
    var ls' := ls + {l};
    assert Ids(ls') == Ids(ls) + {l.id};
    assert m'.Keys == Ids(ls');
    forall id | id in m'
      ensures Carries(ls', id, m'[id].payload)
      ensures m'[id].deleted <==> Tombed(ls', id)
    {
      if id in m {
        var x :| x in ls && x.id == id && x.payload == m[id].payload;
        assert x in ls' && m'[id].payload == m[id].payload;
        if Tombed(ls, id) {
          var t :| t in ls && t.id == id && t.tomb;
          assert t in ls';
        }
        if id == l.id && l.tomb {
          assert l in ls';
        } else if Tombed(ls', id) {
          var t :| t in ls' && t.id == id && t.tomb;
          assert t in ls;
        }
      } else {
        assert id == l.id && l in ls';
        assert id !in Ids(ls);
        if Tombed(ls', id) {
          var t :| t in ls' && t.id == id && t.tomb;
          assert t == l;
        }
      }
    }
  }

  lemma {:induction false} IngestAllExplains(m: Memories, ls: seq<Line>, seen: set<Line>)
    requires Explains(m, seen) && Readable(SetOf(ls))
    ensures Explains(IngestAll(m, ls), seen + SetOf(ls))
    decreases |ls|
  {
    if ls == [] {
      assert seen + SetOf(ls) == seen;
    } else {
      var init, l := ls[..|ls|-1], ls[|ls|-1];
      assert ls == init + [l];
      assert l in ls && l in SetOf(ls);
      IngestAllExplains(m, init, seen);
      IngestLineExplains(IngestAll(m, init), l, seen + SetOf(init));
      assert seen + SetOf(init) + {l} == seen + SetOf(ls);
    }
  }

  lemma {:induction false} IngestAllConcat(m: Memories, a: seq<Line>, b: seq<Line>)
    ensures IngestAll(m, a + b) == IngestAll(IngestAll(m, a), b)
    decreases |b|
  {
    if b == [] {
      assert a + b == a;
    } else {
      assert (a + b)[..|a + b|-1] == a + b[..|b|-1];
      IngestAllConcat(m, a, b[..|b|-1]);
    }
  }

  function Concat(batches: seq<seq<Line>>): seq<Line> {
    if batches == [] then [] else Concat(batches[..|batches|-1]) + batches[|batches|-1]
  }

  function IngestBatches(m: Memories, batches: seq<seq<Line>>): Memories {
    if batches == [] then m
    else IngestAll(IngestBatches(m, batches[..|batches|-1]), batches[|batches|-1])
  }

  lemma {:induction false} BatchesFlatten(m: Memories, batches: seq<seq<Line>>)
    ensures IngestBatches(m, batches) == IngestAll(m, Concat(batches))
  {
    if batches != [] {
      BatchesFlatten(m, batches[..|batches|-1]);
      IngestAllConcat(m, Concat(batches[..|batches|-1]), batches[|batches|-1]);
    }
  }

  /** Two replicas that saw the same set of lines, in any order, with any repetition and any
      batching, hold the same table. */
  lemma Convergence(xs: seq<seq<Line>>, ys: seq<seq<Line>>)
    requires SetOf(Concat(xs)) == SetOf(Concat(ys))
    requires Agree(SetOf(Concat(xs))) && Readable(SetOf(Concat(xs)))
    ensures IngestBatches(map[], xs) == IngestBatches(map[], ys)
    ensures Explains(IngestBatches(map[], xs), SetOf(Concat(xs)))
  {
    BatchesFlatten(map[], xs);
    BatchesFlatten(map[], ys);
    assert Explains(map[], {});
    IngestAllExplains(map[], Concat(xs), {});
    IngestAllExplains(map[], Concat(ys), {});
    assert {} + SetOf(Concat(xs)) == SetOf(Concat(xs));
    assert {} + SetOf(Concat(ys)) == SetOf(Concat(xs));
    ExplainsUnique(IngestAll(map[], Concat(xs)), IngestAll(map[], Concat(ys)), SetOf(Concat(xs)));
  }

  /** Whatever the lines agree on, liveness alone never depends on their order. */
  lemma LivenessNeedsNoAgreement(xs: seq<Line>, ys: seq<Line>)
    requires SetOf(xs) == SetOf(ys) && Readable(SetOf(xs))
    ensures LiveIds(IngestAll(map[], xs)) == LiveIds(IngestAll(map[], ys))
  {
    assert Explains(map[], {});
    IngestAllExplains(map[], xs, {});
    IngestAllExplains(map[], ys, {});
    assert {} + SetOf(xs) == SetOf(xs) && {} + SetOf(ys) == SetOf(ys);
  }

  // ----- reindex against pull -----

  /** The last line of `id` in the log, as an index. */
  ghost predicate LastOf(ls: seq<Line>, id: Id, k: nat) {
    && k < |ls| && ls[k].id == id
    && forall j :: k < j < |ls| ==> ls[j].id != id
  }

  /** Every id that has a tombstone in the log ends with one. */
  ghost predicate TombsLast(ls: seq<Line>) {
    forall k: nat :: k < |ls| && ls[k].tomb ==> EndsDeleted(ls, ls[k].id)
  }

  ghost predicate EndsDeleted(ls: seq<Line>, id: Id) {
    exists k: nat :: LastOf(ls, id, k) && ls[k].tomb
  }

  lemma {:induction false} ReindexIsLast(ls: seq<Line>, id: Id)
    ensures id in ReindexAll(map[], ls) <==> exists k: nat :: LastOf(ls, id, k)
    ensures forall k: nat :: LastOf(ls, id, k) ==>
      id in ReindexAll(map[], ls) && ReindexAll(map[], ls)[id] == Row(ls[k].payload, ls[k].tomb)
  {
    if ls != [] {
      var init, l := ls[..|ls|-1], ls[|ls|-1];
      ReindexIsLast(init, id);
      if l.id == id {
        assert LastOf(ls, id, |ls| - 1);
      } else {
        forall k: nat ensures LastOf(ls, id, k) <==> LastOf(init, id, k) {
          if LastOf(init, id, k) {
            assert forall j :: k < j < |ls| ==> ls[j].id != id by {
              forall j | k < j < |ls| ensures ls[j].id != id {
                if j < |init| { assert ls[j] == init[j]; }
              }
            }
          }
          if LastOf(ls, id, k) {
            assert k != |ls| - 1;
            assert init[k] == ls[k];
            forall j | k < j < |init| ensures init[j].id != id { assert ls[j] == init[j]; }
          }
        }
        assert forall k: nat :: LastOf(ls, id, k) ==> ls[k] == init[k];
      }
    }
  }

  lemma LastExists(ls: seq<Line>, i: nat)
    requires i < |ls|
    ensures exists k: nat :: i <= k && LastOf(ls, ls[i].id, k)
    decreases |ls| - i
  {
    if j: nat :| i < j < |ls| && ls[j].id == ls[i].id {
      LastExists(ls, j);
    } else {
      assert LastOf(ls, ls[i].id, i);
    }
  }

  /** A forced rebuild and a full pull leave the same ids, and they agree on what is deleted
      exactly when every tombstoned id ends with a tombstone. */
  lemma ReindexRefinesPullIff(ls: seq<Line>)
    requires Readable(SetOf(ls))
    ensures ReindexAll(map[], ls).Keys == IngestAll(map[], ls).Keys
    ensures LiveIds(ReindexAll(map[], ls)) == LiveIds(IngestAll(map[], ls)) <==> TombsLast(ls)
  {
    var r, p := ReindexAll(map[], ls), IngestAll(map[], ls);
    assert Explains(map[], {});
    IngestAllExplains(map[], ls, {});
    assert {} + SetOf(ls) == SetOf(ls);
    forall id
      ensures id in r <==> id in p
      ensures id in r ==> exists k: nat :: LastOf(ls, id, k) && r[id].deleted == ls[k].tomb
    {
      ReindexIsLast(ls, id);
      if id in p {
        assert id in Ids(SetOf(ls));
        var l :| l in SetOf(ls) && l.id == id;
        var i: nat :| i < |ls| && ls[i] == l;
        LastExists(ls, i);
      }
      if id in r {
        var k: nat :| LastOf(ls, id, k);
        assert ls[k] in SetOf(ls);
      }
    }
    if TombsLast(ls) {
      forall id | id in r ensures r[id].deleted == p[id].deleted {
        var k: nat :| LastOf(ls, id, k) && r[id].deleted == ls[k].tomb;
        if p[id].deleted {
          var t :| t in SetOf(ls) && t.id == id && t.tomb;
          var i: nat :| i < |ls| && ls[i] == t;
          assert EndsDeleted(ls, id);
          var k': nat :| LastOf(ls, id, k') && ls[k'].tomb;
          assert k == k';
        }
        if ls[k].tomb { assert ls[k] in SetOf(ls); }
      }
    } else {
      var i: nat :| i < |ls| && ls[i].tomb && !EndsDeleted(ls, ls[i].id);
      var id := ls[i].id;
      assert ls[i] in SetOf(ls);
      assert p[id].deleted;
      LastExists(ls, i);
      ReindexIsLast(ls, id);
      assert id in r;
      assert !r[id].deleted;
      assert id in LiveIds(r) && id !in LiveIds(p);
    }
  }

  /** When the rebuild agrees on liveness and lines agree on content, it gives the same table. */
  lemma ReindexEqualsPull(ls: seq<Line>)
    requires Readable(SetOf(ls)) && Agree(SetOf(ls)) && TombsLast(ls)
    ensures ReindexAll(map[], ls) == IngestAll(map[], ls)
  {
    var r, p := ReindexAll(map[], ls), IngestAll(map[], ls);
    ReindexRefinesPullIff(ls);
    assert Explains(map[], {});
    IngestAllExplains(map[], ls, {});
    assert {} + SetOf(ls) == SetOf(ls);
    forall id | id in r ensures r[id] == p[id] {
      ReindexIsLast(ls, id);
      var k: nat :| LastOf(ls, id, k);
      assert ls[k] in SetOf(ls);
      var x :| x in SetOf(ls) && x.id == id && x.payload == p[id].payload;
      assert id in LiveIds(r) <==> id in LiveIds(p);
    }
  }
}
