/**
 Activity numbers: every live row of a cortex ranked by (ts, id), stamped incrementally as rows come
 in and recomputed from scratch when needed.

 Timestamps and ids are modelled by their place in the database's collation order.
 */
module ActivitySeq {
  import opened Wrappers

  type Id = nat

  datatype Row = Row(ts: int, deleted: bool, num: Option<nat>)

  type Table = map<Id, Row>

  function Live(t: Table): set<Id> {
    set id | id in t && !t[id].deleted
  }

  /** `ORDER BY ts ASC, id ASC`. */
  predicate Before(t: Table, a: Id, b: Id)
    requires a in t && b in t
  {
    t[a].ts < t[b].ts || (t[a].ts == t[b].ts && a < b)
  }

  function Earlier(t: Table, among: set<Id>, id: Id): set<Id>
    requires among <= t.Keys && id in t
  {
    set x | x in among && Before(t, x, id)
  }

  function Rank(t: Table, id: Id): nat
    requires id in t
  {
    1 + |Earlier(t, Live(t), id)|
  }

  /** Live rows get their rank, deleted rows none. */
  function Recomputed(t: Table): Table {
    map id | id in t :: t[id].(num := if t[id].deleted then None else Some(Rank(t, id)))
  }

  // ----- ranks are 1..n -----

  lemma SubsetSize<T>(a: set<T>, b: set<T>)
    requires a <= b
    ensures |a| <= |b| && (a != b ==> |a| < |b|)
  {
    assert b == a + (b - a);
  }

  lemma LastExists(t: Table, among: set<Id>) returns (m: Id)
    requires among <= t.Keys && among != {}
    ensures m in among && forall x :: x in among && x != m ==> Before(t, x, m)
    decreases |among|
  {
    m :| m in among;
    var first, rest := m, among - {m};
    assert among == rest + {first};
    if rest != {} {
      var n := LastExists(t, rest);
      if Before(t, m, n) { m := n; }
      forall x | x in among && x != m ensures Before(t, x, m) {
        assert x in rest || x == first;
      }
    }
  }

  /** Every number up to the count belongs to a row. */
  lemma {:induction false} NthExists(t: Table, among: set<Id>, k: nat) returns (x: Id)
    requires among <= t.Keys && k < |among|
    ensures x in among && |Earlier(t, among, x)| == k
    decreases |among|
  {
    var m := LastExists(t, among);
    var rest := among - {m};
    if k == |rest| {
      x := m;
      assert Earlier(t, among, m) == rest;
    } else {
      x := NthExists(t, rest, k);
      assert Earlier(t, among, x) == Earlier(t, rest, x);
    }
  }

  lemma RankOrder(t: Table, a: Id, b: Id)
    requires a in Live(t) && b in Live(t)
    ensures Before(t, a, b) <==> Rank(t, a) < Rank(t, b)
    ensures a == b <==> Rank(t, a) == Rank(t, b)
    ensures 1 <= Rank(t, a) <= |Live(t)|
  {
    var ea, eb := Earlier(t, Live(t), a), Earlier(t, Live(t), b);
    assert ea <= Live(t) - {a};
    SubsetSize(ea, Live(t) - {a});
    if Before(t, a, b) {
      assert ea <= eb && a in eb && a !in ea;
      SubsetSize(ea, eb);
    } else if a != b {
      assert eb <= ea && b in ea && b !in eb;
      SubsetSize(eb, ea);
    }
  }

  /** The numbers that live rows have. */
  function NumbersOf(t: Table): set<int> {
    set id | id in Live(t) && t[id].num.Some? :: t[id].num.value
  }

  /** A recomputed table numbers its live rows exactly 1..n in (ts, id) order, and no other row. */
  lemma RecomputeRanks(t: Table)
    ensures var r := Recomputed(t);
      && Live(r) == Live(t)
      && (forall id :: id in r ==> (r[id].num.Some? <==> id in Live(t)))
      && (forall a, b :: a in Live(t) && b in Live(t) ==>
            (r[a].num.value < r[b].num.value <==> Before(t, a, b)))
      && (forall k :: k in NumbersOf(r) <==> 1 <= k <= |Live(t)|)
  {
    var r := Recomputed(t);
    assert Live(r) == Live(t);
    forall a, b | a in Live(t) && b in Live(t)
      ensures r[a].num.value < r[b].num.value <==> Before(t, a, b)
    {
      RankOrder(t, a, b);
    }
    forall k ensures k in NumbersOf(r) <==> 1 <= k <= |Live(t)| {
      if 1 <= k <= |Live(t)| {
        var x := NthExists(t, Live(t), k - 1);
        assert r[x].num.value == k;
      }
      if k in NumbersOf(r) {
        var id :| id in Live(r) && r[id].num.Some? && r[id].num.value == k;
        RankOrder(t, id, id);
      }
    }
  }

  /** Peers whose live rows agree number them alike, whatever else their tables hold. */
  lemma RecomputeDependsOnLive(s: Table, t: Table)
    requires Live(s) == Live(t) && forall id :: id in Live(s) ==> s[id].ts == t[id].ts
    ensures forall id :: id in Live(s) ==> Recomputed(s)[id].num == Recomputed(t)[id].num
  {
    forall id | id in Live(s) ensures Recomputed(s)[id].num == Recomputed(t)[id].num {
      assert Earlier(s, Live(s), id) == Earlier(t, Live(t), id);
    }
  }

  lemma RecomputeIdempotent(t: Table)
    ensures Recomputed(Recomputed(t)) == Recomputed(t)
  {
    var r := Recomputed(t);
    assert Live(r) == Live(t);
    forall id | id in t ensures Recomputed(r)[id] == r[id] {
      assert Earlier(r, Live(r), id) == Earlier(t, Live(t), id);
    }
  }

  // ----- incremental stamping -----

  ghost predicate Bounds(t: Table, m: nat) {
    forall id :: id in Live(t) && t[id].num.Some? ==> t[id].num.value <= m
  }

  ghost predicate Attained(t: Table, m: nat) {
    m == 0 || exists id :: id in Live(t) && t[id].num == Some(m)
  }

  ghost predicate IsMaxSeq(t: Table, m: nat) {
    Bounds(t, m) && Attained(t, m)
  }

  datatype Action =
    | Insert(id: Id, ts: int, deleted: bool)
    | Delete(id: Id)
    | Replace(id: Id, ts: int, deleted: bool)
    | Recompute

  /** One change of the table.  A new row, tombstoned or not, gets the number after the highest live
      one; deleting keeps the number; rebuilding a row loses it. */
  ghost predicate Steps(t: Table, a: Action, t': Table) {
    match a
    case Insert(id, ts, deleted) =>
      if id in t then t' == t
      else exists m: nat :: IsMaxSeq(t, m) && t' == t[id := Row(ts, deleted, Some(m + 1))]
    case Delete(id) => t' == if id in t then t[id := t[id].(deleted := true)] else t
    case Replace(id, ts, deleted) => t' == t[id := Row(ts, deleted, None)]
    case Recompute => t' == Recomputed(t)
  }

  ghost predicate IsRun(ts: seq<Table>, es: seq<Action>) {
    |ts| == |es| + 1 && forall k :: 0 <= k < |es| ==> Steps(ts[k], es[k], ts[k+1])
  }

  ghost predicate LiveNumbersDistinct(t: Table) {
    forall a, b :: a in Live(t) && b in Live(t) && a != b && t[a].num.Some? ==> t[a].num != t[b].num
  }

  lemma StepKeepsDistinct(t: Table, a: Action, t': Table)
    requires LiveNumbersDistinct(t) && Steps(t, a, t')
    ensures LiveNumbersDistinct(t')
  {
    if a.Recompute? {
      forall x, y | x in Live(t') && y in Live(t') && x != y ensures t'[x].num != t'[y].num {
        RankOrder(t, x, y);
      }
    } else if a.Insert? && a.id !in t {
      var m: nat :| IsMaxSeq(t, m) && t' == t[a.id := Row(a.ts, a.deleted, Some(m + 1))];
      forall x | x in Live(t') && x != a.id ensures x in Live(t) && t'[x] == t[x] {}
    } else {
      forall x | x in Live(t') && t'[x].num.Some? ensures x in Live(t) && t'[x].num == t[x].num {}
    }
  }

  /** Whatever is inserted, deleted, rebuilt or recomputed, no two live rows share a number. */
  lemma {:induction false} LiveNumbersStayDistinct(ts: seq<Table>, es: seq<Action>)
    requires IsRun(ts, es) && ts[0] == map[]
    ensures LiveNumbersDistinct(ts[|es|])
  {
    if es != [] {
      var n := |es| - 1;
      assert IsRun(ts[..n+1], es[..n]);
      LiveNumbersStayDistinct(ts[..n+1], es[..n]);
      assert Steps(ts[n], es[n], ts[n+1]);
      StepKeepsDistinct(ts[n], es[n], ts[n+1]);
    }
  }

  /** A row that comes in, tombstoned or not, gets the number after the highest live one; a row that is there
      already stays as it is. */
  lemma InsertedRow(t: Table, id: Id, ts: int, deleted: bool, t': Table)
    requires Steps(t, Insert(id, ts, deleted), t')
    ensures id in t ==> t' == t
    ensures id !in t ==>
      && t'.Keys == t.Keys + {id} && (forall x :: x in t ==> t'[x] == t[x])
      && t'[id].ts == ts && t'[id].deleted == deleted && t'[id].num.Some? && t'[id].num.value > 0
      && (forall x :: x in t && !t[x].deleted && t[x].num.Some? ==> t[x].num.value < t'[id].num.value)
      && (t'[id].num.value > 1 ==> exists x :: x in t && !t[x].deleted && t[x].num == Some(t'[id].num.value - 1))
  {
    if id !in t {
      var m: nat :| IsMaxSeq(t, m) && t' == t[id := Row(ts, deleted, Some(m + 1))];
      if m > 0 { var x :| x in Live(t) && t[x].num == Some(m); }
    }
  }

  /** The event can take the number away from the row, or give it another. */
  predicate Renumbers(e: Action, id: Id) {
    e.Recompute? || (e.Replace? && e.id == id)
  }

  /** A number stays with its row, through its deletion too, until the row is rebuilt or all are recomputed. */
  lemma {:induction false} NumbersStick(ts: seq<Table>, es: seq<Action>, id: Id)
    requires IsRun(ts, es) && id in ts[0]
    requires forall e :: e in es ==> !Renumbers(e, id)
    ensures id in ts[|es|] && ts[|es|][id].num == ts[0][id].num
    ensures ts[0][id].deleted ==> ts[|es|][id].deleted
  {
    if es != [] {
      var n := |es| - 1;
      assert IsRun(ts[..n+1], es[..n]);
      NumbersStick(ts[..n+1], es[..n], id);
      assert Steps(ts[n], es[n], ts[n+1]) && es[n] in es;
    }
  }

  /** The row was rebuilt live at turn k, and since then neither touched nor numbered. */
  predicate RebuiltAt(es: seq<Action>, id: Id, k: nat) {
    && k < |es| && es[k].Replace? && es[k].id == id && !es[k].deleted
    && forall j :: k < j < |es| ==> !Renumbers(es[j], id) && !(es[j].Delete? && es[j].id == id)
  }

  lemma RebuiltSnoc(es: seq<Action>, id: Id)
    requires es != []
    ensures (exists k: nat :: RebuiltAt(es, id, k)) <==>
      var init, last := es[..|es|-1], es[|es|-1];
      || (last.Replace? && last.id == id && !last.deleted)
      || (!Renumbers(last, id) && !(last.Delete? && last.id == id) && exists k: nat :: RebuiltAt(init, id, k))
  {
    var init, last := es[..|es|-1], es[|es|-1];
    if k: nat :| RebuiltAt(es, id, k) && k < |es| - 1 { assert RebuiltAt(init, id, k); }
    if k: nat :| RebuiltAt(init, id, k) && !Renumbers(last, id) && !(last.Delete? && last.id == id) {
      assert RebuiltAt(es, id, k);
    }
    if last.Replace? && last.id == id && !last.deleted { assert RebuiltAt(es, id, |es| - 1); }
  }

  /** Whatever happened to a table that began empty, a live row lacks a number, and so a backfill is needed,
      exactly when it was rebuilt and not touched or recomputed since. */
  lemma {:induction false} LacksNumberIff(ts: seq<Table>, es: seq<Action>, id: Id)
    requires IsRun(ts, es) && ts[0] == map[]
    ensures id in Live(ts[|es|]) && ts[|es|][id].num.None? <==> exists k: nat :: RebuiltAt(es, id, k)
  {
    if es != [] {
      var n := |es| - 1;
      assert IsRun(ts[..n+1], es[..n]);
      LacksNumberIff(ts[..n+1], es[..n], id);
      RebuiltSnoc(es, id);
      assert Steps(ts[n], es[n], ts[n+1]);
    }
  }

  lemma RecomputedMax(t: Table)
    requires t == Recomputed(t)
    ensures IsMaxSeq(t, |Live(t)|)
  {
    RecomputeRanks(t);
    var n := |Live(t)|;
    forall id | id in Live(t) && t[id].num.Some? ensures t[id].num.value <= n {
      assert t[id].num.value in NumbersOf(t);
    }
    if n > 0 {
      assert n in NumbersOf(t);
      var id :| id in Live(t) && t[id].num.Some? && t[id].num.value == n;
    }
  }

  /** A new live row ranks last exactly when it comes after all live rows. */
  lemma NewRowRank(t: Table, id: Id, row: Row)
    requires id !in t && !row.deleted
    ensures Rank(t[id := row], id) == |Live(t)| + 1 <==> forall x :: x in Live(t) ==> Before(t[id := row], x, id)
  {
    var t' := t[id := row];
    var earlier := Earlier(t', Live(t'), id);
    assert Live(t') == Live(t) + {id};
    assert earlier <= Live(t);
    SubsetSize(earlier, Live(t));
    if forall x :: x in Live(t) ==> Before(t', x, id) {
      assert earlier == Live(t);
    } else {
      var x :| x in Live(t) && !Before(t', x, id);
      assert x !in earlier;
    }
  }

  /** On a recomputed table, stamping a new live row is as good as recomputing exactly when the row
      comes after all live ones. */
  lemma InsertMatchesRecomputeIff(t: Table, id: Id, ts: int, m: nat)
    requires t == Recomputed(t) && id !in t && IsMaxSeq(t, m)
    ensures var t' := t[id := Row(ts, false, Some(m + 1))];
      t' == Recomputed(t') <==> forall x :: x in Live(t) ==> Before(t', x, id)
  {
    var row := Row(ts, false, Some(m + 1));
    RecomputedMax(t);
    NewRowRank(t, id, row);
    if Rank(t[id := row], id) == m + 1 {
      StampIsRecomputed(t, id, row);
    } else {
      assert Recomputed(t[id := row])[id].num != row.num;
    }
  }

  lemma StampIsRecomputed(t: Table, id: Id, row: Row)
    requires t == Recomputed(t) && id !in t && !row.deleted && row.num == Some(Rank(t[id := row], id))
    requires forall x :: x in Live(t) ==> Before(t[id := row], x, id)
    ensures t[id := row] == Recomputed(t[id := row])
  {
    var t' := t[id := row];
    forall x | x in t' ensures t'[x] == Recomputed(t')[x] {
      OtherRowKeepsNumber(t, id, row, x);
    }
  }

  lemma OtherRowKeepsNumber(t: Table, id: Id, row: Row, x: Id)
    requires t == Recomputed(t) && id !in t && x in t[id := row] && !row.deleted
    requires t[id := row][id] == Recomputed(t[id := row])[id]
    requires forall x :: x in Live(t) ==> Before(t[id := row], x, id)
    ensures t[id := row][x] == Recomputed(t[id := row])[x]
  {
    if x in Live(t) { LaterRowKeepsRank(t, id, row, x); }
    else if x != id { assert Recomputed(t)[x] == t[x]; }
  }

  lemma LaterRowKeepsRank(t: Table, id: Id, row: Row, x: Id)
    requires id !in t && x in Live(t) && !row.deleted && Before(t[id := row], x, id)
    requires t == Recomputed(t)
    ensures t[x] == Recomputed(t[id := row])[x]
  {
    var t' := t[id := row];
    assert Live(t') == Live(t) + {id};
    assert Earlier(t', Live(t'), x) == Earlier(t, Live(t), x);
    assert t[x] == Recomputed(t)[x];
  }

  /** The action brings a new live row that comes after every live one. */
  ghost predicate InOrder(t: Table, a: Action) {
    && a.Insert? && !a.deleted && a.id !in t
    && forall x :: x in Live(t) ==> t[x].ts < a.ts || (t[x].ts == a.ts && x < a.id)
  }

  /** Rows that arrive in (ts, id) order on a recomputed table never need a recompute. */
  lemma {:induction false} InOrderNeedsNoRecompute(ts: seq<Table>, es: seq<Action>)
    requires IsRun(ts, es) && ts[0] == Recomputed(ts[0])
    requires forall k :: 0 <= k < |es| ==> InOrder(ts[k], es[k])
    ensures ts[|es|] == Recomputed(ts[|es|])
  {
    if es != [] {
      var n := |es| - 1;
      assert IsRun(ts[..n+1], es[..n]);
      InOrderNeedsNoRecompute(ts[..n+1], es[..n]);
      var t, a := ts[n], es[n];
      assert Steps(t, a, ts[n+1]) && InOrder(t, a);
      var m: nat :| IsMaxSeq(t, m) && ts[n+1] == t[a.id := Row(a.ts, a.deleted, Some(m + 1))];
      InsertMatchesRecomputeIff(t, a.id, a.ts, m);
    }
  }

  // ----- the table -----

  class MemoryTable {
    var rows: Table

    constructor ()
      ensures rows == map[]
    {
      rows := map[];
    }

    /** One more than the highest number among live rows; 1 when none has a number. */
    method AssignNextSeq() returns (next: nat)
      ensures next > 0 && IsMaxSeq(rows, next - 1)
    {
      var top, todo := 0, rows.Keys;
      while todo != {}
        invariant todo <= rows.Keys
        invariant forall id :: id in Live(rows) && id !in todo && rows[id].num.Some? ==> rows[id].num.value <= top
        invariant Attained(rows, top)
        decreases |todo|
      {
        var id :| id in todo;
        todo := todo - {id};
        if !rows[id].deleted && rows[id].num.Some? && rows[id].num.value > top { top := rows[id].num.value; }
      }
      next := top + 1;
    }

    method InsertRow(id: Id, ts: int, deleted: bool)
      modifies this
      ensures Steps(old(rows), Insert(id, ts, deleted), rows)
    {
      if id in rows { return; }
      var next := AssignNextSeq();
      ghost var m := next - 1;
      assert IsMaxSeq(rows, m);
      rows := rows[id := Row(ts, deleted, Some(next))];
    }

    /** Number the live rows by rank, then clear the deleted ones. */
    method RecomputeActivitySeq()
      modifies this
      ensures rows == Recomputed(old(rows))
    {
      rows := map id | id in rows ::
        if rows[id].deleted then rows[id] else rows[id].(num := Some(Rank(rows, id)));
      rows := map id | id in rows :: if rows[id].deleted then rows[id].(num := None) else rows[id];
    }

    /** Recomputes only when some live row has no number; afterwards none lacks one. */
    method BackfillIfNeeded() returns (ran: bool)
      modifies this
      ensures ran <==> exists id :: id in Live(old(rows)) && old(rows)[id].num.None?
      ensures rows == if ran then Recomputed(old(rows)) else old(rows)
      ensures forall id :: id in Live(rows) ==> rows[id].num.Some?
    {
      var missing := set id | id in rows && !rows[id].deleted && rows[id].num.None?;
      ran := missing != {};
      if ran {
        RecomputeActivitySeq();
      } else {
        assert forall id :: id in Live(rows) ==> id !in missing;
      }
    }
  }
}
