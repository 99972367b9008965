/**
 The managed block in a text file: replace it in place, fold duplicates into one, migrate an old
 unmarked section, or append.

 Assumed of the markers: they hold no newline, and their first character occurs once in them; the
 block's body is made of whole lines and free of markers.  Both templates in the repository are of
 that kind.
 */
module ManagedBlock {
  import opened Wrappers

  /** The block is the begin marker, a body of whole lines, the end marker and a newline. */
  datatype Template = Template(begin: string, end: string, body: string) {
    function Block(): string {
      begin + body + end + "\n"
    }
  }

  predicate Marker(m: string) {
    m != "" && '\n' !in m && m[0] !in m[1..]
  }

  ghost predicate Proper(t: Template) {
    && Marker(t.begin) && Marker(t.end) && !(t.end <= t.begin)
    && t.body != "" && t.body[0] == '\n' && t.body[|t.body|-1] == '\n'
    && !Contains(t.body, t.begin) && !Contains(t.body, t.end)
  }

  // ----- occurrences -----

  predicate At(s: string, m: string, i: nat) {
    i + |m| <= |s| && forall k :: i <= k < i + |m| ==> s[k] == m[k-i]
  }

  ghost predicate First(s: string, m: string, from: nat, i: nat) {
    from <= i && At(s, m, i) && forall j: nat :: from <= j < i ==> !At(s, m, j)
  }

  lemma FirstExists(s: string, m: string, from: nat, i: nat)
    requires from <= i && At(s, m, i)
    ensures exists j: nat :: First(s, m, from, j)
    decreases i
  {
    if j: nat :| from <= j < i && At(s, m, j) {
      FirstExists(s, m, from, j);
    } else {
      assert First(s, m, from, i);
    }
  }

  /** The first occurrence from a position on. */
  ghost function NextAt(s: string, m: string, from: nat): (r: Option<nat>)
    ensures r.Some? ==> First(s, m, from, r.value)
    ensures r.None? ==> forall j: nat :: from <= j ==> !At(s, m, j)
  {
    if i: nat :| First(s, m, from, i) then Some(i)
    else
      assert forall j: nat :: from <= j ==> !At(s, m, j) by {
        forall j: nat | from <= j ensures !At(s, m, j) {
          if At(s, m, j) { FirstExists(s, m, from, j); }
        }
      }
      None
  }

  method IndexOf(s: string, m: string, from: nat) returns (r: Option<nat>)
    ensures r == NextAt(s, m, from)
  {
    var i := from;
    while i + |m| <= |s|
      invariant from <= i && forall j: nat :: from <= j < i ==> !At(s, m, j)
    {
      if At(s, m, i) {
        return Some(i);
      }
      i := i + 1;
    }
    r := None;
  }

  ghost predicate Contains(s: string, m: string) {
    exists i: nat :: At(s, m, i)
  }

  // ----- the marker scan -----

  datatype Pair = Pair(start: nat, end: nat)

  /** The next begin marker and the end marker that closes it, unless none does or another begin
      marker comes first. */
  ghost function NextClean(s: string, t: Template, cursor: nat): (p: Option<Pair>)
    requires t.begin != ""
    ensures p.Some? ==> cursor <= p.value.start < p.value.end <= |s|
  {
    var b := NextAt(s, t.begin, cursor);
    if b.None? then None
    else
      var from := b.value + |t.begin|;
      var e, nested := NextAt(s, t.end, from), NextAt(s, t.begin, from);
      if e.None? || (nested.Some? && nested.value < e.value) then None
      else Some(Pair(b.value, e.value + |t.end|))
  }

  /** The clean pairs from `cursor` on. */
  ghost function Scan(s: string, t: Template, cursor: nat): seq<Pair>
    requires t.begin != ""
    decreases |s| - cursor
  {
    var p := NextClean(s, t, cursor);
    if p.None? then [] else [p.value] + Scan(s, t, p.value.end)
  }

  method NextPair(s: string, t: Template, cursor: nat) returns (p: Option<Pair>)
    requires t.begin != ""
    ensures p == NextClean(s, t, cursor)
  {
    var beginIdx := IndexOf(s, t.begin, cursor);
    if beginIdx.None? { return None; }
    var searchFrom := beginIdx.value + |t.begin|;
    var endIdx := IndexOf(s, t.end, searchFrom);
    if endIdx.None? { return None; }
    var nextBeginIdx := IndexOf(s, t.begin, searchFrom);
    if nextBeginIdx.Some? && nextBeginIdx.value < endIdx.value { return None; }
    p := Some(Pair(beginIdx.value, endIdx.value + |t.end|));
  }

  lemma ScanStep(s: string, t: Template, cursor: nat, p: Option<Pair>)
    requires t.begin != "" && p == NextClean(s, t, cursor)
    ensures Scan(s, t, cursor) == if p.None? then [] else [p.value] + Scan(s, t, p.value.end)
    ensures p.Some? ==> cursor < p.value.end <= |s|
  {
  }

  /** The cursor loop over the file. */
  method FindCleanMarkerPairs(content: string, t: Template) returns (pairs: seq<Pair>)
    requires t.begin != ""
    ensures pairs == Scan(content, t, 0)
  {
    pairs := [];
    var cursor := 0;
    ghost var rest := Scan(content, t, cursor);
    while true
      invariant rest == Scan(content, t, cursor) && pairs + rest == Scan(content, t, 0)
      decreases |content| - cursor
    {
      var p := NextPair(content, t, cursor);
      ScanStep(content, t, cursor, p);
      if p.None? { return; }
      rest := Scan(content, t, p.value.end);
      assert pairs + ([p.value] + rest) == (pairs + [p.value]) + rest;
      pairs, cursor := pairs + [p.value], p.value.end;
    }
  }

  ghost predicate CleanPair(s: string, t: Template, p: Pair) {
    && p.start + |t.begin| + |t.end| <= p.end <= |s|
    && At(s, t.begin, p.start) && At(s, t.end, p.end - |t.end|)
    && (forall j: nat :: p.start + |t.begin| <= j < p.end - |t.end| ==> !At(s, t.begin, j) && !At(s, t.end, j))
  }

  lemma NextIsClean(s: string, t: Template, cursor: nat)
    requires t.begin != "" && NextClean(s, t, cursor).Some?
    ensures CleanPair(s, t, NextClean(s, t, cursor).value)
  {
  }

  lemma {:induction false} PairIsClean(s: string, t: Template, cursor: nat, pairs: seq<Pair>, k: nat)
    requires t.begin != "" && pairs == Scan(s, t, cursor) && k < |pairs|
    ensures CleanPair(s, t, pairs[k]) && (if k == 0 then cursor else pairs[k-1].end) <= pairs[k].start
    decreases k
  {
    var p := NextClean(s, t, cursor);
    ScanStep(s, t, cursor, p);
    NextIsClean(s, t, cursor);
    if k > 0 {
      var rest := Scan(s, t, p.value.end);
      PairIsClean(s, t, p.value.end, rest, k - 1);
      assert pairs[k] == rest[k-1] && (k > 1 ==> pairs[k-1] == rest[k-2]);
    }
  }

  /** What the scan reports: pairs in order and apart, each opened by a begin marker and closed by
      the next end marker, with no other begin marker between the two. */
  lemma ScanIsClean(s: string, t: Template, cursor: nat, k: nat)
    requires t.begin != "" && k < |Scan(s, t, cursor)|
    ensures CleanPair(s, t, Scan(s, t, cursor)[k])
    ensures (if k == 0 then cursor else Scan(s, t, cursor)[k-1].end) <= Scan(s, t, cursor)[k].start
  {
    PairIsClean(s, t, cursor, Scan(s, t, cursor), k);
  }

  lemma CleanIsNext(s: string, t: Template, cursor: nat, p: Pair)
    requires t.begin != "" && CleanPair(s, t, p) && First(s, t.begin, cursor, p.start)
    ensures NextClean(s, t, cursor) == Some(p)
  {
    var from, e := p.start + |t.begin|, p.end - |t.end|;
    assert At(s, t.end, e);
    var found := NextAt(s, t.end, from);
    assert found == Some(e);
  }

  /** What the scan leaves out: where it ends, a clean pair can only come after a begin marker that no end
      marker closes cleanly. */
  lemma LeftOutIsBehindStray(s: string, t: Template, cursor: nat, p: Pair) returns (b: nat)
    requires t.begin != "" && Scan(s, t, cursor) == [] && CleanPair(s, t, p) && cursor <= p.start
    ensures cursor <= b < p.start && First(s, t.begin, cursor, b)
    ensures forall q: Pair :: q.start == b ==> !CleanPair(s, t, q)
  {
    assert At(s, t.begin, p.start);
    b := NextAt(s, t.begin, cursor).value;
    forall q: Pair | q.start == b ensures !CleanPair(s, t, q) {
      if CleanPair(s, t, q) { CleanIsNext(s, t, cursor, q); }
    }
  }

  lemma {:induction false} NothingAfterLast(s: string, t: Template, cursor: nat)
    requires t.begin != "" && Scan(s, t, cursor) != []
    ensures var pairs := Scan(s, t, cursor); Scan(s, t, pairs[|pairs|-1].end) == []
    decreases |Scan(s, t, cursor)|
  {
    var first := Scan(s, t, cursor)[0];
    if Scan(s, t, first.end) != [] { NothingAfterLast(s, t, first.end); }
  }

  // ----- the scan of a suffix -----

  lemma ShiftNext(s: string, i: nat, s': string, i': nat, m: string, from: nat)
    requires i <= |s| && i' <= |s'| && s[i..] == s'[i'..]
    ensures NextAt(s, m, i + from).Some? <==> NextAt(s', m, i' + from).Some?
    ensures NextAt(s, m, i + from).Some? ==> NextAt(s, m, i + from).value - i == NextAt(s', m, i' + from).value - i'
  {
    var a, b := NextAt(s, m, i + from), NextAt(s', m, i' + from);
    if a.Some? { assert At(s', m, i' + (a.value - i)); }
    if b.Some? { assert At(s, m, i + (b.value - i')); }
  }

  /** Whether anything is found depends on the text from the cursor on. */
  lemma ShiftScan(s: string, i: nat, s': string, i': nat, t: Template)
    requires t.begin != "" && i <= |s| && i' <= |s'| && s[i..] == s'[i'..]
    ensures Scan(s, t, i) == [] <==> Scan(s', t, i') == []
  {
    ShiftNext(s, i, s', i', t.begin, 0);
    var b := NextAt(s, t.begin, i);
    if b.Some? {
      var from := b.value - i + |t.begin|;
      ShiftNext(s, i, s', i', t.begin, from);
      ShiftNext(s, i, s', i', t.end, from);
    }
  }

  /** Starting at a newline or just after it makes no difference. */
  lemma SkipNewline(s: string, t: Template, i: nat)
    requires Proper(t) && i < |s| && s[i] == '\n'
    ensures Scan(s, t, i) == Scan(s, t, i + 1)
  {
    assert NextClean(s, t, i) == NextClean(s, t, i + 1);
  }

  // ----- one block in a text -----

  /** A marker does not overlap an earlier occurrence of itself. */
  lemma NoSelfOverlap(s: string, m: string, j: nat, i: nat)
    requires Marker(m) && At(s, m, i) && At(s, m, j) && j < i
    ensures j + |m| <= i
  {
    assert s[i] == m[0];
  }

  lemma InnerAt(s: string, x: string, i: nat, m: string, j: nat)
    requires i + |x| <= |s| && s[i..i+|x|] == x && i <= j && j + |m| <= i + |x|
    ensures At(s, m, j) <==> At(x, m, j - i)
  {
    forall k | i <= k < i + |x| ensures s[k] == x[k-i] {
      assert s[k] == s[i..i+|x|][k-i];
    }
    if At(x, m, j - i) {
      forall k | j <= k < j + |m| ensures s[k] == m[k-j] { assert s[k] == x[k-i]; }
    }
    if At(s, m, j) {
      forall k | j - i <= k < j - i + |m| ensures x[k] == m[k-(j-i)] { assert s[k+i] == x[k]; }
    }
  }

  /** A begin marker at `p` with none before it in the text is the first one. */
  lemma BeginsFirst(pre: string, c: string, m: string)
    requires Marker(m) && !Contains(pre, m) && |pre| <= |c| && c[..|pre|] == pre && At(c, m, |pre|)
    ensures NextAt(c, m, 0) == Some(|pre|)
  {
    forall j: nat | j < |pre| ensures !At(c, m, j) {
      if At(c, m, j) {
        NoSelfOverlap(c, m, j, |pre|);
        InnerAt(c, pre, 0, m, j);
      }
    }
  }

  lemma BodyScanned(c: string, t: Template, from: nat)
    requires Proper(t) && from + |t.body| <= |c| && c[from..from+|t.body|] == t.body
    requires At(c, t.end, from + |t.body|)
    ensures NextAt(c, t.end, from) == Some(from + |t.body|)
    ensures NextAt(c, t.begin, from).Some? ==> from + |t.body| <= NextAt(c, t.begin, from).value
  {
    NoMarkerInBody(c, t, from);
  }

  lemma BlockParts(pre: string, t: Template, suf: string)
    ensures var c, from := pre + t.Block() + suf, |pre| + |t.begin|;
      && At(c, t.begin, |pre|) && c[..|pre|] == pre
      && c[from..from+|t.body|] == t.body && At(c, t.end, from + |t.body|)
      && c[|pre|+|t.Block()|-1] == '\n' && c[|pre|+|t.Block()|..] == suf
  {
    var c := pre + (t.begin + (t.body + (t.end + ("\n" + suf))));
    assert c == pre + t.Block() + suf;
  }

  /** The block is the first clean pair when no begin marker comes before it. */
  lemma BlockFirst(pre: string, t: Template, suf: string, c: string)
    requires Proper(t) && !Contains(pre, t.begin) && c == pre + t.Block() + suf
    ensures var close := |pre| + |t.Block()| - 1;
      && NextClean(c, t, 0) == Some(Pair(|pre|, close))
      && close < |c| && c[close] == '\n' && c[close+1..] == suf
  {
    BlockParts(pre, t, suf);
    BeginsFirst(pre, c, t.begin);
    BodyScanned(c, t, |pre| + |t.begin|);
  }

  /** The scan finds the block, and nothing else, when no begin marker comes before it and the text
      behind it holds no clean pair. */
  lemma OneBlock(pre: string, t: Template, suf: string)
    requires Proper(t) && !Contains(pre, t.begin) && Scan(suf, t, 0) == []
    ensures var c := pre + t.Block() + suf;
      Scan(c, t, 0) == [Pair(|pre|, |pre| + |t.Block()| - 1)]
  {
    BlockFirst(pre, t, suf, pre + t.Block() + suf);
    NothingAfter(pre + t.Block() + suf, t, |pre| + |t.Block()| - 1, suf);
  }

  lemma NothingAfter(c: string, t: Template, close: nat, suf: string)
    requires Proper(t) && close < |c| && c[close] == '\n' && c[close+1..] == suf && Scan(suf, t, 0) == []
    ensures Scan(c, t, close) == []
  {
    SkipNewline(c, t, close);
    assert suf[0..] == suf;
    ShiftScan(c, close + 1, suf, 0, t);
  }

  lemma NoMarkerInBody(c: string, t: Template, from: nat)
    requires Proper(t) && from + |t.body| <= |c| && c[from..from+|t.body|] == t.body
    ensures forall j: nat :: from <= j < from + |t.body| ==> !At(c, t.begin, j) && !At(c, t.end, j)
  {
    var last := from + |t.body| - 1;
    assert c[last] == c[from..from+|t.body|][|t.body|-1];
    forall j: nat | from <= j < from + |t.body| ensures !At(c, t.begin, j) && !At(c, t.end, j) {
      if At(c, t.begin, j) {
        InnerAt(c, t.body, from, t.begin, j);
      }
      if At(c, t.end, j) {
        InnerAt(c, t.body, from, t.end, j);
      }
    }
  }

  // ----- the upsert -----

  datatype Legacy = Legacy(fingerprintA: string, fingerprintB: string, heading: string)

  datatype Outcome = Created | Replaced | Deduped(count: nat) | Appended | Migrated | Unchanged

  /** Where the text behind the last pair goes on: one newline is dropped. */
  function AfterStart(s: string, end: nat): nat
    requires end <= |s|
  {
    if end < |s| && s[end] == '\n' then end + 1 else end
  }

  function Separator(s: string): string {
    if |s| >= 2 && s[|s|-2..] == "\n\n" then ""
    else if s != "" && s[|s|-1] == '\n' then "\n"
    else "\n\n"
  }

  function StripEnd(s: string): string {
    if s != "" && s[|s|-1] == '\n' then StripEnd(s[..|s|-1]) else s
  }

  /** Newlines at the end become one. */
  function TrimEnd(s: string): string {
    if s != "" && s[|s|-1] == '\n' then StripEnd(s) + "\n" else s
  }

  function StripStart(s: string): string {
    if s != "" && s[0] == '\n' then StripStart(s[1..]) else s
  }

  ghost predicate HasLegacy(s: string, lg: Option<Legacy>) {
    lg.Some? && Contains(s, lg.value.fingerprintA) && Contains(s, lg.value.fingerprintB)
    && Contains(s, lg.value.heading)
  }

  /** What a migration keeps before the heading, and from the next top-level heading on. */
  ghost function KeptFront(s: string, heading: string): string
    requires Contains(s, heading)
  {
    TrimEnd(s[..NextAt(s, heading, 0).value])
  }

  ghost function KeptBack(s: string, heading: string): string
    requires Contains(s, heading)
  {
    var next := NextAt(s, "\n# ", NextAt(s, heading, 0).value);
    StripStart(s[if next.None? then |s| else next.value + 1..])
  }

  /** The file with the section between the two replaced. */
  ghost function MigratedText(s: string, t: Template, heading: string): string
    requires Contains(s, heading)
  {
    var after := KeptBack(s, heading);
    KeptFront(s, heading) + t.Block() + if after == "" then "" else "\n" + after
  }

  ghost function Upserted(s: string, t: Template, lg: Option<Legacy>): (string, Outcome)
    requires t.begin != ""
  {
    var pairs := Scan(s, t, 0);
    if pairs != [] then
      ScanIsClean(s, t, 0, 0);
      ScanIsClean(s, t, 0, |pairs| - 1);
      var next := s[..pairs[0].start] + t.Block() + s[AfterStart(s, pairs[|pairs|-1].end)..];
      (next, if next == s then Unchanged else if |pairs| > 1 then Deduped(|pairs|) else Replaced)
    else if HasLegacy(s, lg) then (MigratedText(s, t, lg.value.heading), Migrated)
    else (s + Separator(s) + t.Block(), Appended)
  }

  /** The file and the backup beside it. */
  class ManagedFile {
    var content: Option<string>
    var backup: Option<string>

    constructor (c: Option<string>)
      ensures content == c && backup == None
    {
      content, backup := c, None;
    }

    /** With `dryRun` the same outcome is reported and nothing is written. */
    method Upsert(t: Template, lg: Option<Legacy>, dryRun: bool) returns (outcome: Outcome)
      requires t.begin != ""
      modifies this
      ensures old(content).None? ==>
        && outcome == Created && backup == old(backup)
        && content == if dryRun then None else Some(t.Block())
      ensures old(content).Some? ==>
        var (next, kind) := Upserted(old(content).value, t, lg);
        && outcome == kind
        && content == (if dryRun then old(content) else Some(next))
        && backup == if kind.Migrated? && !dryRun then old(content) else old(backup)
    {
      if content.None? {
        if !dryRun { content := Some(t.Block()); }
        return Created;
      }
      var existing := content.value;
      var pairs := FindCleanMarkerPairs(existing, t);
      if pairs != [] {
        outcome := ReplaceBlock(t, existing, pairs, dryRun);
        return;
      }
      if lg.Some? {
        var a := IndexOf(existing, lg.value.fingerprintA, 0);
        var b := IndexOf(existing, lg.value.fingerprintB, 0);
        var heading := IndexOf(existing, lg.value.heading, 0);
        if a.Some? && b.Some? && heading.Some? {
          MigrateSection(t, existing, lg.value, heading.value, dryRun);
          return Migrated;
        }
      }
      if !dryRun { content := Some(existing + Separator(existing) + t.Block()); }
      return Appended;
    }

    method ReplaceBlock(t: Template, existing: string, pairs: seq<Pair>, dryRun: bool) returns (outcome: Outcome)
      requires t.begin != "" && pairs == Scan(existing, t, 0) && pairs != [] && content == Some(existing)
      modifies this`content
      ensures outcome == Upserted(existing, t, None).1
      ensures content == if dryRun then old(content) else Some(Upserted(existing, t, None).0)
    {
      ScanIsClean(existing, t, 0, 0);
      ScanIsClean(existing, t, 0, |pairs| - 1);
      var first, last := pairs[0], pairs[|pairs|-1];
      var before, after := existing[..first.start], existing[AfterStart(existing, last.end)..];
      var next := before + t.Block() + after;
      if next == existing { return Unchanged; }
      if !dryRun { content := Some(next); }
      outcome := if |pairs| > 1 then Deduped(|pairs|) else Replaced;
    }

    method MigrateSection(t: Template, existing: string, lg: Legacy, h: nat, dryRun: bool)
      requires content == Some(existing) && Contains(existing, lg.heading)
      requires NextAt(existing, lg.heading, 0) == Some(h)
      modifies this
      ensures content == if dryRun then old(content) else Some(MigratedText(existing, t, lg.heading))
      ensures backup == if dryRun then old(backup) else Some(existing)
    {
      var nextHeading := IndexOf(existing, "\n# ", h);
      var blockEnd := if nextHeading.None? then |existing| else nextHeading.value + 1;
      var before, after := TrimEnd(existing[..h]), StripStart(existing[blockEnd..]);
      var next := before + t.Block() + if after == "" then "" else "\n" + after;
      if !dryRun {
        backup := Some(existing);
        content := Some(next);
      }
    }
  }

  // ----- what a second run does -----

  /** The text is one block between a front without begin marker and a back without clean pair. */
  ghost predicate Settled(s: string, t: Template, pre: string, suf: string)
    requires t.begin != ""
  {
    s == pre + t.Block() + suf && !Contains(pre, t.begin) && Scan(suf, t, 0) == []
  }

  /** Such a text is left alone, and its only clean pair is the block. */
  lemma SettledIsUnchanged(s: string, t: Template, lg: Option<Legacy>, pre: string, suf: string)
    requires Proper(t) && Settled(s, t, pre, suf)
    ensures Upserted(s, t, lg) == (s, Unchanged)
    ensures |Scan(s, t, 0)| == 1
  {
    OneBlock(pre, t, suf);
    ScanIsClean(s, t, 0, 0);
  }

  lemma NoneInPart(s: string, m: string, i: nat, n: nat)
    requires i <= n <= |s| && forall j: nat :: i <= j && j + |m| <= n ==> !At(s, m, j)
    ensures !Contains(s[i..n], m)
  {
    forall j: nat ensures !At(s[i..n], m, j) {
      if At(s[i..n], m, j) { InnerAt(s, s[i..n], i, m, i + j); }
    }
  }

  lemma FrontHasNoBegin(s: string, t: Template)
    requires t.begin != "" && Scan(s, t, 0) != []
    ensures Scan(s, t, 0)[0].start <= |s| && !Contains(s[..Scan(s, t, 0)[0].start], t.begin)
  {
    ScanIsClean(s, t, 0, 0);
    var a := Scan(s, t, 0)[0].start;
    NoneInPart(s, t.begin, 0, a);
    assert s[0..a] == s[..a];
  }

  lemma BackHasNoPair(s: string, t: Template, z: nat)
    requires Proper(t) && z <= |s| && Scan(s, t, z) == []
    ensures Scan(s[AfterStart(s, z)..], t, 0) == []
  {
    if z < |s| && s[z] == '\n' { SkipNewline(s, t, z); }
    var suf := s[AfterStart(s, z)..];
    assert suf[0..] == suf;
    ShiftScan(s, AfterStart(s, z), suf, 0, t);
  }

  lemma PairsAreInside(s: string, t: Template)
    requires t.begin != "" && Scan(s, t, 0) != []
    ensures var pairs := Scan(s, t, 0);
      pairs[0].start <= pairs[|pairs|-1].end <= |s| && At(s, t.begin, pairs[0].start)
  {
    var pairs := Scan(s, t, 0);
    ScanIsClean(s, t, 0, 0);
    ScanIsClean(s, t, 0, |pairs| - 1);
    PairsAscend(s, t, |pairs| - 1);
  }

  lemma OneNewlineDropped(s: string, z: nat)
    requires z <= |s|
    ensures s[z..] == s[AfterStart(s, z)..] || s[z..] == "\n" + s[AfterStart(s, z)..]
  {
  }

  /** Replacing keeps what is outside the outermost pair, but for one newline, and settles. */
  lemma ReplaceSettles(s: string, t: Template, lg: Option<Legacy>)
    requires Proper(t) && Scan(s, t, 0) != []
    ensures var pairs := Scan(s, t, 0);
      var a, z := pairs[0].start, pairs[|pairs|-1].end;
      && a <= z <= |s| && At(s, t.begin, a)
      && Settled(Upserted(s, t, lg).0, t, s[..a], s[AfterStart(s, z)..])
      && (s[z..] == s[AfterStart(s, z)..] || s[z..] == "\n" + s[AfterStart(s, z)..])
  {
    var pairs := Scan(s, t, 0);
    var z := pairs[|pairs|-1].end;
    PairsAreInside(s, t);
    FrontHasNoBegin(s, t);
    NothingAfterLast(s, t, 0);
    BackHasNoPair(s, t, z);
    OneNewlineDropped(s, z);
  }

  lemma {:induction false} PairsAscend(s: string, t: Template, k: nat)
    requires t.begin != "" && k < |Scan(s, t, 0)|
    ensures Scan(s, t, 0)[0].start <= Scan(s, t, 0)[k].end
  {
    ScanIsClean(s, t, 0, k);
    if k > 0 { PairsAscend(s, t, k - 1); }
  }

  lemma NoneInPad(s: string, pad: string, m: string, j: nat)
    requires Marker(m) && (forall c :: c in pad ==> c == '\n') && |s| <= j
    ensures !At(s + pad, m, j)
  {
    if j < |s + pad| {
      assert (s + pad)[j] == pad[j-|s|] && pad[j-|s|] in pad;
      assert m[0] in m;
    }
  }

  /** Newlines behind a text bring no marker about. */
  lemma PaddedAt(s: string, pad: string, m: string, j: nat)
    requires Marker(m) && (forall c :: c in pad ==> c == '\n') && At(s + pad, m, j)
    ensures At(s, m, j)
  {
    if |s| <= j {
      NoneInPad(s, pad, m, j);
    } else {
      if pad != "" {
        assert (s + pad)[|s|] == pad[0] && pad[0] in pad;
      }
      InnerAt(s + pad, s, 0, m, j);
    }
  }

  lemma AppendSettles(s: string, t: Template)
    requires Proper(t) && !Contains(s, t.begin)
    ensures Settled(s + Separator(s) + t.Block(), t, s + Separator(s), "")
  {
    var pre := s + Separator(s);
    forall j: nat ensures !At(pre, t.begin, j) {
      if At(pre, t.begin, j) { PaddedAt(s, Separator(s), t.begin, j); }
    }
    assert pre + t.Block() + "" == pre + t.Block();
  }

  lemma {:induction false} StripEndIsPrefix(s: string)
    ensures StripEnd(s) <= s && (forall k :: |StripEnd(s)| <= k < |s| ==> s[k] == '\n')
    ensures s != "" && s[|s|-1] == '\n' ==> |StripEnd(s)| < |s|
  {
    if s != "" && s[|s|-1] == '\n' { StripEndIsPrefix(s[..|s|-1]); }
  }

  lemma TrimEndIsPrefix(s: string)
    ensures TrimEnd(s) <= s
  {
    StripEndIsPrefix(s);
  }

  lemma TailSettles(after: string, t: Template)
    requires Proper(t)
    ensures Scan(if after == "" then "" else "\n" + after, t, 0) == [] <==> Scan(after, t, 0) == []
  {
    if after != "" {
      var tail := "\n" + after;
      SkipNewline(tail, t, 0);
      assert tail[1..] == after == after[0..];
      ShiftScan(tail, 1, after, 0, t);
    }
  }

  /** Migration keeps a front part of the file and a back part. */
  lemma KeptParts(s: string, heading: string)
    requires Contains(s, heading)
    ensures var pre, after := KeptFront(s, heading), KeptBack(s, heading);
      pre <= s && |after| <= |s| && after == s[|s|-|after|..]
  {
    var h := NextAt(s, heading, 0).value;
    TrimEndIsPrefix(s[..h]);
    var section, back := BackParts(s, heading, h);
    assert s[h..][|section|..] == back;
  }

  /** A migration settles the file when no begin marker is kept before the block and no clean pair behind
      it. */
  lemma MigrateSettles(s: string, t: Template, heading: string)
    requires Proper(t) && Contains(s, heading)
    requires !Contains(KeptFront(s, heading), t.begin) && Scan(KeptBack(s, heading), t, 0) == []
    ensures var after := KeptBack(s, heading);
      Settled(MigratedText(s, t, heading), t, KeptFront(s, heading), if after == "" then "" else "\n" + after)
  {
    TailSettles(KeptBack(s, heading), t);
  }

  lemma NoBeginIsKept(s: string, t: Template, heading: string)
    requires Proper(t) && Contains(s, heading) && !Contains(s, t.begin)
    ensures !Contains(KeptFront(s, heading), t.begin) && Scan(KeptBack(s, heading), t, 0) == []
  {
    var pre, after := KeptFront(s, heading), KeptBack(s, heading);
    KeptParts(s, heading);
    NoneInPart(s, t.begin, 0, |pre|);
    NoneInPart(s, t.begin, |s| - |after|, |s|);
    assert pre == s[0..|pre|] && after == s[|s|-|after|..|s|];
  }

  /** With clean pairs, or without any begin marker, one run settles the file: exactly one clean pair
      remains and the second run changes nothing. */
  lemma SecondRunIsUnchanged(s: string, t: Template, lg: Option<Legacy>)
    requires Proper(t) && (Scan(s, t, 0) != [] || !Contains(s, t.begin))
    ensures var next := Upserted(s, t, lg).0;
      && Upserted(next, t, lg) == (next, Unchanged)
      && |Scan(next, t, 0)| == 1
  {
    var next := Upserted(s, t, lg).0;
    if Scan(s, t, 0) != [] {
      ReplaceSettles(s, t, lg);
      var pairs := Scan(s, t, 0);
      SettledIsUnchanged(next, t, lg, s[..pairs[0].start], s[AfterStart(s, pairs[|pairs|-1].end)..]);
    } else if HasLegacy(s, lg) {
      NoBeginIsKept(s, t, lg.value.heading);
      MigrateSettles(s, t, lg.value.heading);
      var after := KeptBack(s, lg.value.heading);
      SettledIsUnchanged(next, t, lg, KeptFront(s, lg.value.heading), if after == "" then "" else "\n" + after);
    } else {
      AppendSettles(s, t);
      SettledIsUnchanged(next, t, lg, s + Separator(s), "");
    }
  }

  /** So does the file that a first run creates. */
  lemma CreatedIsUnchanged(t: Template, lg: Option<Legacy>)
    requires Proper(t)
    ensures Upserted(t.Block(), t, lg) == (t.Block(), Unchanged)
  {
    assert "" + t.Block() + "" == t.Block();
    SettledIsUnchanged(t.Block(), t, lg, "", "");
  }

  // ----- what each outcome writes -----

  /** Which outcome a file gets: clean pairs go first, then a section with both fingerprints and the heading;
      with pairs, the file counts as unchanged exactly when rewriting it makes no difference. */
  lemma OutcomeIff(s: string, t: Template, lg: Option<Legacy>)
    requires t.begin != ""
    ensures var (next, kind) := Upserted(s, t, lg);
      var legacy := lg.Some? && Contains(s, lg.value.fingerprintA) && Contains(s, lg.value.fingerprintB)
                    && Contains(s, lg.value.heading);
      && (kind.Migrated? <==> Scan(s, t, 0) == [] && legacy)
      && (kind.Appended? <==> Scan(s, t, 0) == [] && !legacy)
      && (kind.Unchanged? <==> Scan(s, t, 0) != [] && next == s)
      && (kind.Replaced? ==> |Scan(s, t, 0)| == 1)
      && (kind.Deduped? ==> kind.count == |Scan(s, t, 0)| > 1)
      && !kind.Created?
  {
    if Scan(s, t, 0) != [] {
      ScanIsClean(s, t, 0, 0);
      ScanIsClean(s, t, 0, |Scan(s, t, 0)| - 1);
    }
  }

  ghost predicate EndsInBlankLine(s: string) {
    exists front: string :: s == front + "\n\n"
  }

  /** An append leaves the text as it is, and puts just the newlines between that a blank line before the
      block takes. */
  lemma AppendsAfterBlankLine(s: string, t: Template, lg: Option<Legacy>) returns (pad: string)
    requires t.begin != "" && Upserted(s, t, lg).1.Appended?
    ensures Upserted(s, t, lg).0 == s + pad + t.Block() && EndsInBlankLine(s + pad)
    ensures pad in {"", "\n", "\n\n"}
    ensures pad != "" ==> !EndsInBlankLine(s)
    ensures pad == "\n\n" ==> s == "" || s[|s|-1] != '\n'
  {
    pad := Separator(s);
    var all := s + pad;
    assert all == all[..|all|-2] + "\n\n";
    if front: string :| s == front + "\n\n" { assert s[|s|-2..] == "\n\n"; }
  }

  /** Newlines and nothing else. */
  predicate Newlines(s: string) {
    forall c :: c in s ==> c == '\n'
  }

  /** The text is a front that ends in no newline, newlines, the section, and what follows it: the section
      starts at the first heading and goes up to the next top-level heading, or to the end. */
  ghost predicate SectionParts(s: string, heading: string, core: string, pad: string, section: string, back: string) {
    && s == core + pad + section + back
    && (core != "" ==> core[|core|-1] != '\n') && Newlines(pad)
    && First(s, heading, 0, |core + pad|)
    && (if back == "" then forall j: nat :: |core + pad| <= j ==> !At(s, "\n# ", j)
        else section != "" && First(s, "\n# ", |core + pad|, |core + pad + section| - 1))
  }

  /** A migration replaces the section, from its heading to the next top-level heading, by the block, with
      one newline before it when there was any and one behind it when something follows; the rest of the
      file stays. */
  lemma MigratesSection(s: string, t: Template, lg: Option<Legacy>)
    returns (core: string, pad: string, section: string, back: string)
    requires t.begin != "" && Upserted(s, t, lg).1.Migrated?
    ensures lg.Some? && SectionParts(s, lg.value.heading, core, pad, section, back)
    ensures Upserted(s, t, lg).0 ==
      core + (if pad == "" then "" else "\n") + t.Block() + (if back == "" then "" else "\n" + back)
  {
    var heading := lg.value.heading;
    var h := NextAt(s, heading, 0).value;
    core, pad := FrontParts(s[..h]);
    section, back := BackParts(s, heading, h);
    PartsFit(s, heading, h, core, pad, section, back);
  }

  lemma PartsFit(s: string, heading: string, h: nat, core: string, pad: string, section: string, back: string)
    requires First(s, heading, 0, h) && h <= |s| && s[..h] == core + pad && s[h..] == section + back
    requires (core != "" ==> core[|core|-1] != '\n') && Newlines(pad)
    requires if back == "" then forall j: nat :: h <= j ==> !At(s, "\n# ", j)
             else section != "" && First(s, "\n# ", h, h + |section| - 1)
    ensures SectionParts(s, heading, core, pad, section, back)
  {
    assert s == s[..h] + s[h..] == (core + pad) + (section + back);
    assert (core + pad) + (section + back) == core + pad + section + back;
    assert |core + pad| == h;
  }

  /** A text without its newlines at the end, and those. */
  lemma FrontParts(front: string) returns (core: string, pad: string)
    ensures front == core + pad && Newlines(pad) && (core != "" ==> core[|core|-1] != '\n')
    ensures TrimEnd(front) == core + if pad == "" then "" else "\n"
  {
    StripEndIsPrefix(front);
    StripEndIsCore(front);
    core := StripEnd(front);
    pad := front[|core|..];
  }

  lemma {:induction false} StripEndIsCore(s: string)
    ensures StripEnd(s) != "" ==> StripEnd(s)[|StripEnd(s)|-1] != '\n'
  {
    if s != "" && s[|s|-1] == '\n' { StripEndIsCore(s[..|s|-1]); }
  }

  /** The section, and what comes after it: it starts with a heading, so no newline is dropped. */
  lemma BackParts(s: string, heading: string, h: nat) returns (section: string, back: string)
    requires NextAt(s, heading, 0) == Some(h) && h <= |s|
    ensures s[h..] == section + back && KeptBack(s, heading) == back
    ensures if back == "" then forall j: nat :: h <= j ==> !At(s, "\n# ", j)
            else section != "" && First(s, "\n# ", h, h + |section| - 1)
  {
    var next := NextAt(s, "\n# ", h);
    var end := if next.None? then |s| else next.value + 1;
    section, back := s[h..end], s[end..];
    assert s[h..] == section + back;
    if next.Some? { assert s[end] == "\n# "[1] && back[0] == '#'; }
  }

  // ----- a begin marker that nothing closes -----

  ghost predicate Stray(s: string, t: Template)
    requires t.begin != ""
  {
    Contains(s, t.begin) && Scan(s, t, 0) == []
  }

  lemma PrefixNext(s: string, c: string, m: string, from: nat)
    requires s <= c && NextAt(s, m, from).Some?
    ensures NextAt(c, m, from) == NextAt(s, m, from)
  {
    var i := NextAt(s, m, from).value;
    forall j: nat | from <= j <= i ensures At(c, m, j) <==> At(s, m, j) { InnerAt(c, s, 0, m, j); }
  }

  lemma BlockAtEnd(s: string, t: Template)
    requires Proper(t)
    ensures var c, p := s + Separator(s) + t.Block(), |s| + |Separator(s)|;
      && At(c, t.begin, p) && c[..p] == s + Separator(s)
      && 0 < p && c[p-1] == '\n' && c[p+|t.begin|] == '\n'
  {
    var pre := s + Separator(s);
    var c, p := pre + t.Block(), |pre|;
    assert c + "" == c;
    assert c[p-1] == pre[p-1];
    assert c[p+|t.begin|] == c[p+|t.begin|..p+|t.begin|+|t.body|][0];
  }

  /** Behind a padded text, an end marker comes after the begin marker of the block. */
  lemma EndComesLater(s: string, t: Template, from: nat, j: nat)
    requires Proper(t) && NextAt(s, t.end, from).None? && from <= j
    requires At(s + Separator(s) + t.Block(), t.end, j)
    ensures |s| + |Separator(s)| < j
  {
    var pre := s + Separator(s);
    var c, p := pre + t.Block(), |s| + |Separator(s)|;
    BlockAtEnd(s, t);
    if j < p {
      InnerAt(c, pre, 0, t.end, j);
      PaddedAt(s, Separator(s), t.end, j);
    } else if j == p {
      EndIsNotBegin(c, t, p);
    }
  }

  lemma EndIsNotBegin(c: string, t: Template, p: nat)
    requires Proper(t) && At(c, t.begin, p) && p + |t.begin| < |c| && c[p+|t.begin|] == '\n'
    ensures !At(c, t.end, p)
  {
    if At(c, t.end, p) {
      forall k | 0 <= k < |t.end| ensures t.end[k] == t.begin[k] { assert c[p+k] == t.end[k]; }
    }
  }

  /** The first begin marker stays unclosed: an end marker that follows it has another begin marker before. */
  lemma StaysUnclosed(s: string, c: string, t: Template, from: nat)
    requires Proper(t) && c == s + Separator(s) + t.Block() && from <= |s|
    requires var e, nested := NextAt(s, t.end, from), NextAt(s, t.begin, from);
      e.None? || (nested.Some? && nested.value < e.value)
    ensures var e, nested := NextAt(c, t.end, from), NextAt(c, t.begin, from);
      e.None? || (nested.Some? && nested.value < e.value)
  {
    if NextAt(s, t.end, from).Some? {
      PrefixNext(s, c, t.end, from);
      PrefixNext(s, c, t.begin, from);
    } else {
      BlockAtEnd(s, t);
      var e := NextAt(c, t.end, from);
      if e.Some? { EndComesLater(s, t, from, e.value); }
    }
  }

  /** Appending to it changes nothing about that: the next run appends again. */
  lemma StrayStaysStray(s: string, t: Template)
    requires Proper(t) && Stray(s, t)
    ensures Upserted(s, t, None).1.Appended?
    ensures Stray(Upserted(s, t, None).0, t)
  {
    var c := s + Separator(s) + t.Block();
    PrefixNext(s, c, t.begin, 0);
    StaysUnclosed(s, c, t, NextAt(s, t.begin, 0).value + |t.begin|);
  }

  // ----- exactly when the second run is unchanged -----

  /** Both markers start alike, with a character that occurs once in each, as HTML comments do. */
  predicate Alike(t: Template)
    requires t.begin != "" && t.end != ""
  {
    t.begin[0] == t.end[0]
  }

  /** Then no two markers overlap. */
  lemma NoOverlap(s: string, m: string, m': string, j: nat, i: nat)
    requires Marker(m) && Marker(m') && m[0] == m'[0] && At(s, m, j) && At(s, m', i) && j < i
    ensures j + |m| <= i
  {
    assert s[i] == m'[0];
  }

  /** A begin marker kept before the block makes the migrated text ambiguous. */
  lemma FrontMarkerBlocks(s: string, t: Template, front: string, n: string)
    requires Proper(t) && Alike(t) && front <= s && Scan(s, t, 0) == [] && Contains(front, t.begin)
    requires front <= n && At(n, t.begin, |front|) && |front| + |t.begin| < |n| && n[|front|+|t.begin|] == '\n'
    ensures Scan(n, t, 0) == []
  {
    var b := NextAt(front, t.begin, 0).value;
    var from := b + |t.begin|;
    PrefixNext(front, s, t.begin, 0);
    PrefixNext(front, n, t.begin, 0);
    var nested, e := NextAt(n, t.begin, from), NextAt(n, t.end, from);
    if e.Some? && e.value <= nested.value {
      if e.value < |front| { NoOverlap(n, t.end, t.begin, e.value, |front|); }
      else { EndIsNotBegin(n, t, |front|); }
      EndInFrontIsNested(s, t, front, n, from, e.value);
    }
  }

  lemma BlockStandsAt(front: string, t: Template, back: string, n: string)
    requires Proper(t) && n == front + t.Block() + back
    ensures front <= n && At(n, t.begin, |front|) && |front| + |t.begin| < |n| && n[|front|+|t.begin|] == '\n'
  {
    BlockParts(front, t, back);
    var from := |front| + |t.begin|;
    assert n[from] == n[from..from+|t.body|][0];
  }

  /** An end marker in the kept front, after its first begin marker, has another begin marker before it. */
  lemma EndInFrontIsNested(s: string, t: Template, front: string, n: string, from: nat, e: nat)
    requires Proper(t) && Alike(t) && front <= s && front <= n && Scan(s, t, 0) == []
    requires NextAt(s, t.begin, 0).Some? && from == NextAt(s, t.begin, 0).value + |t.begin|
    requires NextAt(n, t.end, from) == Some(e) && e + |t.end| <= |front|
    ensures NextAt(n, t.begin, from).Some? && NextAt(n, t.begin, from).value < e
  {
    InnerAt(n, front, 0, t.end, e);
    PrefixNext(front, n, t.end, from);
    PrefixNext(front, s, t.end, from);
    var inner := NextAt(s, t.begin, from);
    assert inner.Some? && inner.value < e;
    NoOverlap(s, t.begin, t.end, inner.value, e);
    InnerAt(s, front, 0, t.begin, inner.value);
    InnerAt(n, front, 0, t.begin, inner.value);
  }

  lemma {:induction false} LaterPairEnds(s: string, t: Template, k: nat)
    requires t.begin != "" && 1 <= k < |Scan(s, t, 0)|
    ensures Scan(s, t, 0)[1].end <= Scan(s, t, 0)[k].end <= |s|
  {
    ScanIsClean(s, t, 0, k);
    if 1 < k { LaterPairEnds(s, t, k - 1); }
  }

  lemma SecondPair(n: string, t: Template, start: nat, close: nat, back: string)
    requires Proper(t) && NextClean(n, t, 0) == Some(Pair(start, close))
    requires close < |n| && n[close] == '\n' && n[close+1..] == back && Scan(back, t, 0) != []
    ensures |Scan(n, t, 0)| >= 2 && Scan(n, t, 0)[0] == Pair(start, close)
  {
    SkipNewline(n, t, close);
    assert back[0..] == back;
    ShiftScan(n, close + 1, back, 0, t);
  }

  /** Folding two pairs or more shortens the text when the first is the block itself. */
  lemma FoldShortens(n: string, t: Template, start: nat, close: nat, lg: Option<Legacy>)
    requires Proper(t) && |Scan(n, t, 0)| >= 2 && Scan(n, t, 0)[0] == Pair(start, close)
    requires close == start + |t.Block()| - 1
    ensures !Upserted(n, t, lg).1.Unchanged?
  {
    var pairs := Scan(n, t, 0);
    ScanIsClean(n, t, 0, 1);
    LaterPairEnds(n, t, |pairs| - 1);
    var z := pairs[|pairs|-1].end;
    assert close + 2 <= z <= |n|;
    assert |n[..start] + t.Block() + n[AfterStart(n, z)..]| < |n|;
  }

  /** A clean pair kept behind the block is a second pair, which the next run folds. */
  lemma BackPairIsFolded(front: string, t: Template, back: string, lg: Option<Legacy>)
    requires Proper(t) && !Contains(front, t.begin) && Scan(back, t, 0) != []
    ensures !Upserted(front + t.Block() + back, t, lg).1.Unchanged?
  {
    var n, close := front + t.Block() + back, |front| + |t.Block()| - 1;
    BlockFirst(front, t, back, n);
    SecondPair(n, t, |front|, close, back);
    FoldShortens(n, t, |front|, close, lg);
  }

  /** The second run leaves the file alone exactly when the first one found a clean pair, or migrated a
      section and kept no begin marker before it and no clean pair behind it, or found no section to
      migrate and no begin marker. */
  lemma SecondRunUnchangedIff(s: string, t: Template, lg: Option<Legacy>)
    requires Proper(t) && Alike(t)
    ensures Upserted(Upserted(s, t, lg).0, t, lg).1.Unchanged? <==>
      || Scan(s, t, 0) != []
      || (if HasLegacy(s, lg)
          then !Contains(KeptFront(s, lg.value.heading), t.begin) && Scan(KeptBack(s, lg.value.heading), t, 0) == []
          else !Contains(s, t.begin))
  {
    if Scan(s, t, 0) != [] {
      SecondRunIsUnchanged(s, t, lg);
    } else if HasLegacy(s, lg) {
      MigratedUnchangedIff(s, t, lg);
    } else if Contains(s, t.begin) {
      StrayStaysStray(s, t);
    } else {
      SecondRunIsUnchanged(s, t, lg);
    }
  }

  lemma MigratedUnchangedIff(s: string, t: Template, lg: Option<Legacy>)
    requires Proper(t) && Alike(t) && Scan(s, t, 0) == [] && HasLegacy(s, lg)
    ensures Upserted(MigratedText(s, t, lg.value.heading), t, lg).1.Unchanged? <==>
      !Contains(KeptFront(s, lg.value.heading), t.begin) && Scan(KeptBack(s, lg.value.heading), t, 0) == []
  {
    var front, after := KeptFront(s, lg.value.heading), KeptBack(s, lg.value.heading);
    var back := if after == "" then "" else "\n" + after;
    TailSettles(after, t);
    if Contains(front, t.begin) {
      KeptParts(s, lg.value.heading);
      BlockStandsAt(front, t, back, front + t.Block() + back);
      FrontMarkerBlocks(s, t, front, front + t.Block() + back);
    } else if Scan(after, t, 0) != [] {
      BackPairIsFolded(front, t, back, lg);
    } else {
      MigrateSettles(s, t, lg.value.heading);
      SettledIsUnchanged(MigratedText(s, t, lg.value.heading), t, lg, front, back);
    }
  }

  ghost function Runs(s: string, t: Template, n: nat): string
    requires t.begin != ""
  {
    if n == 0 then s else Upserted(Runs(s, t, n - 1), t, None).0
  }

  lemma StrayGrowsOnce(s: string, t: Template, next: string)
    requires Proper(t) && Stray(s, t) && next == Upserted(s, t, None).0
    ensures Stray(next, t) && |next| >= |s| + |t.Block()|
  {
    StrayStaysStray(s, t);
  }

  lemma OneTimeMore(n: nat, k: nat)
    requires n > 0
    ensures n * k == (n - 1) * k + k
  {
  }

  lemma {:induction false} GrownAfter(s: string, t: Template, n: nat, r: string)
    requires Proper(t) && Stray(s, t) && r == Runs(s, t, n)
    ensures Stray(r, t) && |r| >= |s| + n * |t.Block()|
  {
    if n > 0 {
      var before := Runs(s, t, n - 1);
      GrownAfter(s, t, n - 1, before);
      StrayGrowsOnce(before, t, r);
      OneTimeMore(n, |t.Block()|);
    }
  }

  /** A file with a begin marker that nothing closes grows by a block on every run. */
  lemma StrayGrowsForever(s: string, t: Template, n: nat)
    requires Proper(t) && Stray(s, t)
    ensures Stray(Runs(s, t, n), t)
    ensures |Runs(s, t, n)| >= |s| + n * |t.Block()|
  {
    GrownAfter(s, t, n, Runs(s, t, n));
  }
}
