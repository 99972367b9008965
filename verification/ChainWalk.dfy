/**
 Rendering long-term events as supersession chains: pull in missing ancestors, link each event to the
 one that supersedes it, and walk from every event that supersedes nothing.

 The supersedes links may be anything: cycles, ids that no longer exist, two events superseding one.
 Sorting the heads by time and the printed text are not modelled.
 */
module ChainWalk {
  import opened Wrappers

  type Id = string

  datatype Event = Event(id: Id, supersedes: Option<Id>)

  /** Events by id, in insertion order. */
  type Index = seq<Event>

  type Store = map<Id, Event>

  const ANCESTRY_ROUNDS: nat := 20

  ghost predicate DistinctIds(ix: Index) {
    forall i, j :: 0 <= i < j < |ix| ==> ix[i].id != ix[j].id
  }

  predicate Keyed(store: Store) {
    forall id :: id in store ==> store[id].id == id
  }

  predicate Has(ix: Index, id: Id) {
    exists i :: 0 <= i < |ix| && ix[i].id == id
  }

  // ----- pulling in ancestors -----

  function Fetch(store: Store, ix: Index, id: Id): Index {
    if Has(ix, id) || id !in store then ix else ix + [store[id]]
  }

  /** The ancestors of the given events, added one by one. */
  function FetchAll(store: Store, ix: Index, es: seq<Event>): Index {
    if es == [] then ix
    else
      var ix' := FetchAll(store, ix, es[..|es|-1]);
      if es[|es|-1].supersedes.Some? then Fetch(store, ix', es[|es|-1].supersedes.value) else ix'
  }

  function Rounds(store: Store, ix: Index, n: nat): Index {
    if n == 0 then ix else var ix' := Rounds(store, ix, n - 1); FetchAll(store, ix', ix')
  }

  function WithAncestors(store: Store, events: seq<Event>): Index {
    Rounds(store, FetchAll(store, events, events), ANCESTRY_ROUNDS)
  }

  lemma {:induction false} FetchAllKeeps(store: Store, ix: Index, es: seq<Event>)
    requires Keyed(store) && DistinctIds(ix)
    ensures DistinctIds(FetchAll(store, ix, es)) && ix <= FetchAll(store, ix, es)
  {
    if es != [] { FetchAllKeeps(store, ix, es[..|es|-1]); }
  }

  lemma {:induction false} RoundsKeep(store: Store, ix: Index, n: nat)
    requires Keyed(store) && DistinctIds(ix)
    ensures DistinctIds(Rounds(store, ix, n)) && ix <= Rounds(store, ix, n)
  {
    if n > 0 {
      RoundsKeep(store, ix, n - 1);
      FetchAllKeeps(store, Rounds(store, ix, n - 1), Rounds(store, ix, n - 1));
    }
  }

  // ----- links -----

  /** Who supersedes an id; of several, the last in the index. */
  function Links(ix: Index): map<Id, Id> {
    if ix == [] then map[]
    else
      var last := ix[|ix|-1];
      if last.supersedes.Some? then Links(ix[..|ix|-1])[last.supersedes.value := last.id]
      else Links(ix[..|ix|-1])
  }

  ghost predicate Supersedes(ix: Index, id: Id, parent: Id) {
    exists i :: 0 <= i < |ix| && ix[i].id == id && ix[i].supersedes == Some(parent)
  }

  lemma {:induction false} LinksAre(ix: Index, parent: Id)
    ensures parent in Links(ix) ==> Supersedes(ix, Links(ix)[parent], parent)
    ensures forall i :: 0 <= i < |ix| && ix[i].supersedes == Some(parent) ==> parent in Links(ix)
  {
    if ix != [] {
      var init := ix[..|ix|-1];
      LinksAre(init, parent);
      if parent in Links(ix) && ix[|ix|-1].supersedes != Some(parent) {
        var i :| 0 <= i < |init| && init[i].id == Links(init)[parent] && init[i].supersedes == Some(parent);
        assert ix[i] == init[i];
      }
    }
  }

  // ----- chains -----

  /** The event that supersedes `e` in the walk. */
  ghost predicate Follows(ix: Index, e: Event, next: Event) {
    e in ix && next in ix && e.id in Links(ix) && Links(ix)[e.id] == next.id
  }

  /** From an event that supersedes nothing, each event followed by the one that supersedes it. */
  ghost predicate Climbs(ix: Index, path: seq<Event>) {
    && path != [] && path[0] in ix && path[0].supersedes.None?
    && forall k :: 0 < k < |path| ==> Follows(ix, path[k-1], path[k])
  }

  /** A climb that cannot go on. */
  ghost predicate FullChain(ix: Index, path: seq<Event>) {
    Climbs(ix, path) && path[|path|-1].id !in Links(ix)
  }

  lemma SameIdSameEvent(ix: Index, a: Event, b: Event)
    requires DistinctIds(ix) && a in ix && b in ix && a.id == b.id
    ensures a == b
  {
  }

  /** A link leads from an event to one that names it. */
  lemma FollowsMeans(ix: Index, e: Event, next: Event)
    requires DistinctIds(ix) && Follows(ix, e, next)
    ensures next.supersedes == Some(e.id)
  {
    LinksAre(ix, e.id);
    var i :| 0 <= i < |ix| && ix[i].id == next.id && ix[i].supersedes == Some(e.id);
    SameIdSameEvent(ix, ix[i], next);
  }

  lemma ClimbsInside(ix: Index, path: seq<Event>, k: nat)
    requires Climbs(ix, path) && k < |path|
    ensures path[k] in ix
  {
    if k > 0 { assert Follows(ix, path[k-1], path[k]); }
  }

  /** Two climbs that meet have come the same way. */
  lemma {:induction false} ClimbsMeet(ix: Index, p: seq<Event>, i: nat, q: seq<Event>, j: nat)
    requires DistinctIds(ix) && Climbs(ix, p) && Climbs(ix, q) && i < |p| && j < |q| && p[i] == q[j]
    ensures i == j && p[0] == q[0] && p[..i+1] == q[..j+1]
  {
    if i > 0 { FollowsMeans(ix, p[i-1], p[i]); }
    if j > 0 { FollowsMeans(ix, q[j-1], q[j]); }
    if i > 0 && j > 0 {
      SameIdSameEvent(ix, p[i-1], q[j-1]);
      ClimbsMeet(ix, p, i - 1, q, j - 1);
      assert p[..i+1] == p[..i] + [p[i]] && q[..j+1] == q[..j] + [q[j]];
    }
  }

  /** A climb visits no event twice, and has no more steps than there are events. */
  lemma ClimbIsSimple(ix: Index, p: seq<Event>)
    requires DistinctIds(ix) && Climbs(ix, p)
    ensures forall i, j :: 0 <= i < j < |p| ==> p[i] != p[j]
    ensures |p| <= |ix|
  {
    forall i, j | 0 <= i < j < |p| ensures p[i] != p[j] {
      if p[i] == p[j] { ClimbsMeet(ix, p, i, p, j); }
    }
    forall k | 0 <= k < |p| ensures p[k] in ix { ClimbsInside(ix, p, k); }
    NoMoreThan(p, ix);
  }

  lemma {:induction false} NoMoreThan(p: seq<Event>, ix: Index)
    requires (forall i, j :: 0 <= i < j < |p| ==> p[i] != p[j]) && forall k :: 0 <= k < |p| ==> p[k] in ix
    ensures |p| <= |ix|
  {
    if p != [] {
      var last := p[|p|-1];
      var i :| 0 <= i < |ix| && ix[i] == last;
      var rest := ix[..i] + ix[i+1..];
      assert ix == ix[..i] + [last] + ix[i+1..];
      var init := p[..|p|-1];
      forall k | 0 <= k < |init| ensures init[k] in rest {
        assert init[k] == p[k] && p[k] != last && p[k] in ix;
      }
      NoMoreThan(init, rest);
    }
  }

  /** Chains from different heads share no event. */
  lemma ChainsDisjoint(ix: Index, p: seq<Event>, q: seq<Event>)
    requires DistinctIds(ix) && Climbs(ix, p) && Climbs(ix, q) && p[0] != q[0]
    ensures forall i, j :: 0 <= i < |p| && 0 <= j < |q| ==> p[i] != q[j]
  {
    forall i, j | 0 <= i < |p| && 0 <= j < |q| ensures p[i] != q[j] {
      if p[i] == q[j] { ClimbsMeet(ix, p, i, q, j); }
    }
  }

  // ----- what gets printed -----

  ghost predicate Printed(ix: Index, e: Event) {
    exists path :: Climbs(ix, path) && path[|path|-1] == e
  }

  /** An event is printed iff it supersedes nothing, or its parent is present and printed and it is
      the event the parent is linked to. */
  lemma PrintedIff(ix: Index, e: Event)
    requires DistinctIds(ix) && e in ix
    ensures Printed(ix, e) <==>
      || e.supersedes.None?
      || exists parent :: Printed(ix, parent) && Follows(ix, parent, e)
  {
    if Printed(ix, e) {
      var path :| Climbs(ix, path) && path[|path|-1] == e;
      if |path| > 1 {
        var init := path[..|path|-1];
        assert Climbs(ix, init) && init[|init|-1] == path[|path|-2];
        assert Follows(ix, path[|path|-2], e);
      }
    }
    if e.supersedes.None? {
      assert Climbs(ix, [e]) && [e][0] == e;
    }
    if parent :| Printed(ix, parent) && Follows(ix, parent, e) {
      var path :| Climbs(ix, path) && path[|path|-1] == parent;
      var longer := path + [e];
      assert Climbs(ix, longer) && longer[|longer|-1] == e;
    }
  }

  /** The event supersedes one of the set, or one that is not there. */
  ghost predicate Adrift(ix: Index, es: set<Event>, e: Event) {
    && e.supersedes.Some?
    && forall parent :: parent in ix && parent.id == e.supersedes.value ==> parent in es
  }

  /** Hence events that all supersede one another, or an event outside the index, are never printed. */
  lemma {:induction false} RootlessNeverPrinted(ix: Index, es: set<Event>, path: seq<Event>)
    requires DistinctIds(ix) && Climbs(ix, path)
    requires forall e :: e in es ==> Adrift(ix, es, e)
    ensures path[|path|-1] !in es
  {
    if |path| > 1 {
      var init := path[..|path|-1];
      assert Climbs(ix, init);
      RootlessNeverPrinted(ix, es, init);
      FollowsMeans(ix, path[|path|-2], path[|path|-1]);
    }
  }

  /** Of two events that supersede the same one, only the later in the index is printed. */
  lemma LosingBranchNeverPrinted(ix: Index, e: Event)
    requires DistinctIds(ix) && e in ix && e.supersedes.Some?
    requires e.supersedes.value in Links(ix) && Links(ix)[e.supersedes.value] != e.id
    ensures !Printed(ix, e)
  {
    if Printed(ix, e) {
      var path :| Climbs(ix, path) && path[|path|-1] == e;
      assert |path| > 1;
      FollowsMeans(ix, path[|path|-2], e);
    }
  }

  /** Of the events that supersede one, the last in the index is linked. */
  lemma {:induction false} LastLinkWins(ix: Index, k: nat, parent: Id)
    requires k < |ix| && ix[k].supersedes == Some(parent)
    requires forall j :: k < j < |ix| ==> ix[j].supersedes != Some(parent)
    ensures parent in Links(ix) && Links(ix)[parent] == ix[k].id
  {
    if k < |ix| - 1 { LastLinkWins(ix[..|ix|-1], k, parent); }
  }

  lemma LastOf(ix: Index, i: nat, parent: Id) returns (k: nat)
    requires i < |ix| && ix[i].supersedes == Some(parent)
    ensures i <= k < |ix| && ix[k].supersedes == Some(parent)
    ensures forall j :: k < j < |ix| ==> ix[j].supersedes != Some(parent)
    decreases |ix| - i
  {
    if j: nat :| i < j < |ix| && ix[j].supersedes == Some(parent) { k := LastOf(ix, j, parent); }
    else { k := i; }
  }

  /** So an event is never printed when a later one in the index supersedes the same. */
  lemma EarlierRivalNeverPrinted(ix: Index, i: nat, j: nat)
    requires DistinctIds(ix) && i < j < |ix| && ix[i].supersedes.Some? && ix[i].supersedes == ix[j].supersedes
    ensures !Printed(ix, ix[i])
  {
    var k := LastOf(ix, j, ix[i].supersedes.value);
    LastLinkWins(ix, k, ix[i].supersedes.value);
    LosingBranchNeverPrinted(ix, ix[i]);
  }

  // ----- which ancestors are found -----

  ghost predicate IsParent(store: Store, e: Event, parent: Event) {
    e.supersedes.Some? && e.supersedes.value in store && store[e.supersedes.value] == parent
  }

  /** The event is one of the given ones, or at most n links above one. */
  ghost predicate Within(store: Store, events: seq<Event>, e: Event, n: nat)
    decreases n
  {
    if n == 0 then e in events
    else Within(store, events, e, n - 1) || exists x :: Within(store, events, x, n - 1) && IsParent(store, x, e)
  }

  ghost predicate FromStore(store: Store, ix: Index) {
    forall e :: e in ix ==> e.id in store && store[e.id] == e
  }

  ghost predicate HasChild(store: Store, es: seq<Event>, parent: Event) {
    exists x :: x in es && IsParent(store, x, parent)
  }

  lemma HasChildSnoc(store: Store, init: seq<Event>, last: Event, parent: Event)
    ensures HasChild(store, init + [last], parent) <==> HasChild(store, init, parent) || IsParent(store, last, parent)
  {
    var es := init + [last];
    assert forall x :: x in es <==> x in init || x == last;
    if HasChild(store, init, parent) {
      var x :| x in init && IsParent(store, x, parent);
      assert x in es;
    }
    if IsParent(store, last, parent) { assert last in es; }
  }

  /** One round adds the parents of what there is, and nothing else. */
  lemma {:induction false} RoundAddsParents(store: Store, ix: Index, es: seq<Event>, e: Event)
    requires Keyed(store) && FromStore(store, ix)
    ensures FromStore(store, FetchAll(store, ix, es))
    ensures e in FetchAll(store, ix, es) <==> e in ix || HasChild(store, es, e)
  {
    if es != [] {
      var init, last := es[..|es|-1], es[|es|-1];
      assert es == init + [last];
      RoundAddsParents(store, ix, init, e);
      HasChildSnoc(store, init, last, e);
      if last.supersedes.Some? { FetchAdds(store, FetchAll(store, ix, init), last.supersedes.value, e); }
    }
  }

  lemma FetchAdds(store: Store, ix: Index, id: Id, e: Event)
    requires Keyed(store) && FromStore(store, ix)
    ensures FromStore(store, Fetch(store, ix, id))
    ensures e in Fetch(store, ix, id) <==> e in ix || (id in store && e == store[id])
  {
    if Has(ix, id) {
      var i :| 0 <= i < |ix| && ix[i].id == id;
      assert ix[i] in ix;
    }
  }

  /** The index holds exactly what is at most n links above the given events. */
  ghost predicate Reaches(store: Store, events: seq<Event>, ix: Index, n: nat) {
    FromStore(store, ix) && forall e :: e in ix <==> Within(store, events, e, n)
  }

  lemma RoundReaches(store: Store, events: seq<Event>, ix: Index, n: nat)
    requires Keyed(store) && Reaches(store, events, ix, n)
    ensures Reaches(store, events, FetchAll(store, ix, ix), n + 1)
  {
    var next := FetchAll(store, ix, ix);
    forall e ensures FromStore(store, next) && (e in next <==> Within(store, events, e, n + 1)) {
      RoundAddsParents(store, ix, ix, e);
    }
  }

  lemma {:induction false} RoundsReach(store: Store, events: seq<Event>, ix: Index, d: nat, n: nat)
    requires Keyed(store) && Reaches(store, events, ix, d)
    ensures Reaches(store, events, Rounds(store, ix, n), d + n)
  {
    if n > 0 {
      RoundsReach(store, events, ix, d, n - 1);
      RoundReaches(store, events, Rounds(store, ix, n - 1), d + n - 1);
    }
  }

  /** The index holds the given events and what is up to 21 links above one of them, and nothing else. */
  lemma AncestorsIff(store: Store, events: seq<Event>, e: Event)
    requires Keyed(store) && FromStore(store, events)
    ensures e in WithAncestors(store, events) <==> Within(store, events, e, 21)
  {
    RoundReaches(store, events, events, 0);
    RoundsReach(store, events, FetchAll(store, events, events), 1, ANCESTRY_ROUNDS);
  }

  // ----- a long chain -----

  /** A history in which each event supersedes the next, newest first. */
  ghost predicate LinearHistory(h: seq<Event>, store: Store) {
    && h != [] && DistinctIds(h)
    && (forall k :: 0 <= k < |h| ==> h[k].id in store && store[h[k].id] == h[k])
    && (forall k :: 0 <= k < |h| - 1 ==> h[k].supersedes == Some(h[k+1].id))
    && h[|h|-1].supersedes.None?
  }

  /** One round finds one more ancestor. */
  lemma {:induction false} RoundFindsOne(h: seq<Event>, store: Store, n: nat, m: nat)
    requires LinearHistory(h, store) && 1 <= n <= |h| && m <= n
    ensures FetchAll(store, h[..n], h[..m]) == if m == n < |h| then h[..n+1] else h[..n]
  {
    if m > 0 {
      RoundFindsOne(h, store, n, m - 1);
      assert h[..m][..m-1] == h[..m-1] && h[..m][m-1] == h[m-1];
      if m < n {
        assert h[..n][m].id == h[m].id;
        assert Has(h[..n], h[m].id);
      } else if n < |h| {
        assert !Has(h[..n], h[n].id);
        assert h[..n] + [h[n]] == h[..n+1];
      }
    }
  }

  lemma {:induction false} RoundsFind(h: seq<Event>, store: Store, n: nat, rounds: nat)
    requires LinearHistory(h, store) && 1 <= n <= |h|
    ensures Rounds(store, h[..n], rounds) == if n + rounds <= |h| then h[..n+rounds] else h
  {
    assert h[..|h|] == h;
    if 0 < rounds {
      RoundsFind(h, store, n, rounds - 1);
      var m := if n + rounds - 1 <= |h| then n + rounds - 1 else |h|;
      var before := Rounds(store, h[..n], rounds - 1);
      assert before == h[..m];
      NextRoundFinds(h, store, m);
      assert Rounds(store, h[..n], rounds) == FetchAll(store, before, before);
    }
  }

  lemma NextRoundFinds(h: seq<Event>, store: Store, m: nat)
    requires LinearHistory(h, store) && 1 <= m <= |h|
    ensures FetchAll(store, h[..m], h[..m]) == if m < |h| then h[..m+1] else h[..m]
  {
    RoundFindsOne(h, store, m, m);
  }

  lemma HeadlessPrintsNothing(h: seq<Event>, store: Store, n: nat)
    requires LinearHistory(h, store) && n < |h|
    ensures forall e :: !Printed(h[..n], e)
  {
    var ix := h[..n];
    forall k | 0 <= k < n ensures ix[k].supersedes.Some? {
      assert h[k].supersedes == Some(h[k+1].id);
    }
    assert forall e :: e in ix ==> e.supersedes.Some?;
  }

  lemma HistoryFound(h: seq<Event>, store: Store, rounds: nat)
    requires LinearHistory(h, store)
    ensures Rounds(store, FetchAll(store, [h[0]], [h[0]]), rounds) ==
      if |h| <= rounds + 2 then h else h[..rounds+2]
  {
    var n := if |h| == 1 then 1 else 2;
    assert [h[0]] == h[..1] && h[..|h|] == h;
    RoundFindsOne(h, store, 1, 1);
    RoundsFind(h, store, n, rounds);
  }

  lemma FrontPrinted(h: seq<Event>, store: Store, n: nat, ix: Index)
    requires LinearHistory(h, store) && ix == if |h| <= n then h else h[..n]
    ensures Printed(ix, h[0]) <==> |h| <= n
    ensures |h| > n ==> forall e :: !Printed(ix, e)
  {
    if |h| <= n { WholeHistoryPrinted(h, store, 0); }
    else { HeadlessPrintsNothing(h, store, n); }
  }

  /** When a search finds only the newest event of a history, the whole history is printed if it has
      at most 22 events; a longer one disappears altogether, the found event included. */
  lemma DeepHistoryVanishesIff(h: seq<Event>, store: Store)
    requires LinearHistory(h, store)
    ensures var ix := WithAncestors(store, [h[0]]);
      && (Printed(ix, h[0]) <==> |h| <= 22)
      && (|h| > 22 ==> forall e :: !Printed(ix, e))
  {
    HistoryFound(h, store, ANCESTRY_ROUNDS);
    FrontPrinted(h, store, ANCESTRY_ROUNDS + 2, WithAncestors(store, [h[0]]));
  }

  lemma {:induction false} WholeHistoryPrinted(h: seq<Event>, store: Store, k: nat)
    requires LinearHistory(h, store) && k < |h|
    ensures Printed(h, h[k])
    decreases |h| - k
  {
    if k < |h| - 1 {
      WholeHistoryPrinted(h, store, k + 1);
      LinksAre(h, h[k+1].id);
      assert h[k].supersedes == Some(h[k+1].id);
      var i :| 0 <= i < |h| && h[i].id == Links(h)[h[k+1].id] && h[i].supersedes == Some(h[k+1].id);
      assert i < |h| - 1 && h[i+1].id == h[k+1].id;
      assert i == k;
      assert Follows(h, h[k+1], h[k]);
    }
    PrintedIff(h, h[k]);
  }

  // ----- the renderer -----

  method FetchAncestors(store: Store, events: seq<Event>) returns (ix: Index)
    requires Keyed(store) && DistinctIds(events)
    ensures ix == WithAncestors(store, events) && DistinctIds(ix)
  {
    ix := FetchAll(store, events, events);
    FetchAllKeeps(store, events, events);
    ghost var start := ix;
    for depth := 0 to ANCESTRY_ROUNDS
      invariant ix == Rounds(store, start, depth)
    {
      var added := exists i :: 0 <= i < |ix| && ix[i].supersedes.Some? && !Has(ix, ix[i].supersedes.value);
      if !added {
        Saturated(store, start, depth, ANCESTRY_ROUNDS);
        break;
      }
      ix := FetchAll(store, ix, ix);
    }
    RoundsKeep(store, start, ANCESTRY_ROUNDS);
  }

  lemma {:induction false} NothingMissing(store: Store, ix: Index, es: seq<Event>)
    requires forall e :: e in es && e.supersedes.Some? ==> Has(ix, e.supersedes.value)
    ensures FetchAll(store, ix, es) == ix
  {
    if es != [] {
      NothingMissing(store, ix, es[..|es|-1]);
      assert es[|es|-1] in es;
    }
  }

  /** Once no ancestor is missing, further rounds add nothing. */
  lemma {:induction false} Saturated(store: Store, ix: Index, k: nat, n: nat)
    requires k <= n
    requires var r := Rounds(store, ix, k);
      forall i :: 0 <= i < |r| && r[i].supersedes.Some? ==> Has(r, r[i].supersedes.value)
    ensures Rounds(store, ix, n) == Rounds(store, ix, k)
  {
    if k < n {
      Saturated(store, ix, k, n - 1);
      NothingMissing(store, Rounds(store, ix, k), Rounds(store, ix, k));
    }
  }

  method BuildLinks(ix: Index) returns (links: map<Id, Id>)
    ensures links == Links(ix)
  {
    links := map[];
    for k := 0 to |ix|
      invariant links == Links(ix[..k])
    {
      assert ix[..k+1][..k] == ix[..k];
      if ix[k].supersedes.Some? { links := links[ix[k].supersedes.value := ix[k].id]; }
    }
    assert ix[..|ix|] == ix;
  }

  method Lookup(ix: Index, id: Id) returns (e: Event)
    requires DistinctIds(ix) && Has(ix, id)
    ensures e in ix && e.id == id
  {
    var k := 0;
    while ix[k].id != id
      invariant k < |ix| && exists i :: k <= i < |ix| && ix[i].id == id
      decreases |ix| - k
    {
      k := k + 1;
    }
    e := ix[k];
  }

  /** The walk ends, whatever the graph. */
  method PrintChain(ix: Index, links: map<Id, Id>, head: Event) returns (chain: seq<Event>)
    requires DistinctIds(ix) && links == Links(ix) && head in ix && head.supersedes.None?
    ensures FullChain(ix, chain) && chain[0] == head
  {
    var cur := head;
    chain := [head];
    while cur.id in links
      invariant Climbs(ix, chain) && chain[0] == head && cur == chain[|chain|-1]
      decreases |ix| - |chain|
    {
      ClimbsInside(ix, chain, |chain| - 1);
      LinksAre(ix, cur.id);
      var next := Lookup(ix, links[cur.id]);
      chain := chain + [next];
      ClimbIsSimple(ix, chain);
      cur := next;
    }
  }

  /** The event heads one of the chains. */
  ghost predicate Heads(chains: seq<seq<Event>>, e: Event) {
    exists k :: 0 <= k < |chains| && chains[k] != [] && chains[k][0] == e
  }

  /** The chains are full, each from its own head. */
  ghost predicate OnePerHead(ix: Index, chains: seq<seq<Event>>) {
    && (forall k :: 0 <= k < |chains| ==> FullChain(ix, chains[k]))
    && (forall i, j :: 0 <= i < j < |chains| ==> chains[i] != [] && chains[j] != [] && chains[i][0] != chains[j][0])
  }

  lemma OneMoreChain(ix: Index, chains: seq<seq<Event>>, chain: seq<Event>, e: Event)
    requires OnePerHead(ix, chains) && FullChain(ix, chain) && !Heads(chains, chain[0])
    ensures OnePerHead(ix, chains + [chain])
    ensures Heads(chains + [chain], e) <==> Heads(chains, e) || chain[0] == e
  {
    var more := chains + [chain];
    assert more[|chains|] == chain;
    forall i | 0 <= i < |chains| ensures chains[i] != [] && chains[i][0] != chain[0] {
      assert FullChain(ix, chains[i]);
    }
    if Heads(chains, e) {
      var k :| 0 <= k < |chains| && chains[k] != [] && chains[k][0] == e;
      assert more[k] == chains[k];
    }
  }

  /** One full chain for each event that supersedes nothing. */
  method RenderLongTermEvents(store: Store, events: seq<Event>) returns (chains: seq<seq<Event>>, ghost ix: Index)
    requires Keyed(store) && DistinctIds(events)
    ensures ix == WithAncestors(store, events) && DistinctIds(ix) && OnePerHead(ix, chains)
    ensures forall e :: Heads(chains, e) <==> e in ix && e.supersedes.None?
  {
    var index := FetchAncestors(store, events);
    ix := index;
    var links := BuildLinks(index);
    chains := [];
    for k := 0 to |index|
      invariant OnePerHead(index, chains)
      invariant forall e :: Heads(chains, e) <==> e in index[..k] && e.supersedes.None?
    {
      assert index[..k+1] == index[..k] + [index[k]];
      if index[k].supersedes.None? {
        var chain := PrintChain(index, links, index[k]);
        forall e ensures Heads(chains + [chain], e) <==> Heads(chains, e) || chain[0] == e {
          OneMoreChain(index, chains, chain, e);
        }
        OneMoreChain(index, chains, chain, chain[0]);
        chains := chains + [chain];
      }
    }
    assert index[..|index|] == index;
  }

  /** A chain and every event it could have reached: an event is printed iff it is in some chain. */
  lemma ChainsHoldPrinted(ix: Index, chain: seq<Event>, path: seq<Event>)
    requires DistinctIds(ix) && FullChain(ix, chain) && Climbs(ix, path) && chain[0] == path[0]
    ensures path <= chain
  {
    PathIsPrefix(ix, chain, path, |path|);
    assert path[..|path|] == path;
  }

  lemma {:induction false} PathIsPrefix(ix: Index, chain: seq<Event>, path: seq<Event>, n: nat)
    requires DistinctIds(ix) && FullChain(ix, chain) && Climbs(ix, path) && chain[0] == path[0] && n <= |path|
    ensures n <= |chain| && path[..n] == chain[..n]
  {
    if n > 1 {
      PathIsPrefix(ix, chain, path, n - 1);
      assert path[n-2] == path[..n-1][n-2] == chain[..n-1][n-2] == chain[n-2];
      assert Follows(ix, path[n-2], path[n-1]);
      assert n - 1 < |chain|;
      assert Follows(ix, chain[n-2], chain[n-1]);
      SameIdSameEvent(ix, path[n-1], chain[n-1]);
      assert path[..n] == path[..n-1] + [path[n-1]] && chain[..n] == chain[..n-1] + [chain[n-1]];
    }
  }

  /** The rendered chains hold exactly the events that can be climbed to. */
  lemma PrintedIsInAChain(ix: Index, chains: seq<seq<Event>>, e: Event)
    requires DistinctIds(ix) && OnePerHead(ix, chains)
    requires forall h :: Heads(chains, h) <==> h in ix && h.supersedes.None?
    ensures Printed(ix, e) <==> exists k :: 0 <= k < |chains| && e in chains[k]
  {
    if Printed(ix, e) {
      var path :| Climbs(ix, path) && path[|path|-1] == e;
      assert Heads(chains, path[0]);
      var k :| 0 <= k < |chains| && chains[k] != [] && chains[k][0] == path[0];
      ChainsHoldPrinted(ix, chains[k], path);
      assert chains[k][|path|-1] == e;
    }
    if k :| 0 <= k < |chains| && e in chains[k] {
      assert FullChain(ix, chains[k]);
      var i :| 0 <= i < |chains[k]| && chains[k][i] == e;
      var path := chains[k][..i+1];
      assert Climbs(ix, path) && path[|path|-1] == e;
    }
  }
}
