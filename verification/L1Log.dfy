/**
 L1: the shared, append-only git log of a cortex, as the writers and readers see it.

 A line is one well-formed JSONL entry.  A tombstone line reuses the id of the entry it
 deletes.  A branch tip is identified with the sequence of commits that leads to it, so two
 tips are the same commit exactly when their histories are equal, "is an ancestor of" is the
 prefix order, and a fast-forward is an extension.
 */
module L1Log {
  import opened Wrappers

  type Id = string

  /** The fields of an entry that every reader carries over unchanged. */
  datatype Payload = Payload(ts: string, author: string, kind: string, content: string)

  datatype Line = Line(id: Id, payload: Payload, tomb: bool)

  /** `stamp` stands for the commit message and its timestamps. */
  datatype Commit = Commit(stamp: nat, lines: seq<Line>)

  type History = seq<Commit>

  /** The lines of a history in log order. */
  function Flat(h: History): seq<Line> {
    if h == [] then [] else Flat(h[..|h|-1]) + h[|h|-1].lines
  }

  function SetOf(ls: seq<Line>): set<Line> {
    set l | l in ls
  }

  function Lines(h: History): set<Line> {
    SetOf(Flat(h))
  }

  /** The history behind a ref; an absent ref has none. */
  function HistoryOf(ref: Option<History>): History {
    match ref
    case None => []
    case Some(h) => h
  }

  function RefLines(ref: Option<History>): set<Line> {
    Lines(HistoryOf(ref))
  }

  /** Same-id lines carry the same payload: writers copy the row into its tombstone. */
  ghost predicate Agree(ls: set<Line>) {
    forall a, b :: a in ls && b in ls && a.id == b.id ==> a.payload == b.payload
  }

  ghost predicate Readable(ls: set<Line>) {
    forall l :: l in ls ==> l.payload.content != ""
  }

  lemma FlatAppend(h: History, c: Commit)
    ensures Flat(h + [c]) == Flat(h) + c.lines
    ensures Lines(h + [c]) == Lines(h) + SetOf(c.lines)
  {
    assert (h + [c])[..|h + [c]|-1] == h;
  }

  lemma {:induction false} FlatConcat(a: History, b: History)
    ensures Flat(a + b) == Flat(a) + Flat(b)
    decreases |b|
  {
    if b == [] {
      assert a + b == a;
    } else {
      var init, all := b[..|b|-1], a + b;
      FlatConcat(a, init);
      assert all[..|all|-1] == a + init;
      calc {
        Flat(all);
        Flat(a + init) + b[|b|-1].lines;
        Flat(a) + Flat(init) + b[|b|-1].lines;
        Flat(a) + (Flat(init) + b[|b|-1].lines);
        Flat(a) + Flat(b);
      }
    }
  }

  /** A fast-forward never loses a line. */
  lemma LinesMonotone(a: History, b: History)
    requires a <= b
    ensures Lines(a) <= Lines(b)
  {
    assert b == a + b[|a|..];
    FlatConcat(a, b[|a|..]);
  }
}
