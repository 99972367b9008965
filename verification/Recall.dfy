/**
 Recall from one cortex: search by cosine, reweight by recency, add curator and context terms, sort,
 cut to the limit, and only then filter by provenance and trust tier.

 The recency weight is any positive function that is 1 at distance 0 and does not grow with distance, and
 the cosines are inputs.
 */
module Recall {
  import opened Wrappers

  const RECENCY_OVERFETCH_FACTOR: nat := 5

  datatype Quality = Neutral | PromotedRetro | RelegatedRetro

  datatype Tier = Trusted | Untrusted | Quarantined

  /** A live row of the cortex as one query sees it.  `hidden` rows are superseded or compacted away,
      `matching` rows meet the kind, topic and time filters. */
  datatype Row = Row(
    id: nat, embedded: bool, hidden: bool, matching: bool, similarity: real, num: Option<nat>,
    quality: Quality, inContext: bool, provenance: string, tier: Tier)

  datatype Query = Query(
    limit: nat, constrained: bool, floor: real, floorExplicit: bool,
    qualityBoost: real, qualityPenalty: real, contextBoost: real)

  datatype Entry = Entry(row: Row, score: real)

  // ----- recency -----

  ghost predicate IsWeight(w: nat -> real) {
    w(0) == 1.0 && (forall d :: 0.0 < w(d)) && forall d, e :: d <= e ==> w(e) <= w(d)
  }

  /** The cosine discounted by distance; a negative one grows more negative. */
  function Recency(similarity: real, distance: nat, w: nat -> real): real {
    similarity * if similarity >= 0.0 then w(distance) else 2.0 - w(distance)
  }

  lemma ScaleMonotone(s: real, a: real, b: real)
    requires a <= b
    ensures s >= 0.0 ==> s * a <= s * b
    ensures s <= 0.0 ==> s * b <= s * a
  {
    var d := b - a;
    assert s * b == s * a + s * d;
    if s >= 0.0 { assert s * d >= 0.0; } else { assert s * d <= 0.0; }
  }

  lemma DiscountPositive(s: real, weight: real)
    requires s >= 0.0 && 0.0 < weight <= 1.0
    ensures s * weight <= s && (s > 0.0 ==> s * weight > 0.0)
  {
  }

  lemma DiscountNegative(s: real, weight: real)
    requires s < 0.0 && 0.0 < weight <= 1.0
    ensures 2.0 * s < s * (2.0 - weight) <= s
  {
    DiscountPositive(-s, weight);
    assert s * (2.0 - weight) == 2.0 * s + (-s) * weight;
  }

  lemma RecencyBounds(similarity: real, distance: nat, w: nat -> real)
    requires IsWeight(w)
    ensures Recency(similarity, distance, w) <= similarity
    ensures similarity > 0.0 ==> Recency(similarity, distance, w) > 0.0
    ensures similarity < 0.0 ==> 2.0 * similarity < Recency(similarity, distance, w)
  {
    var weight := w(distance);
    assert 0.0 < weight && w(distance) <= w(0);
    if similarity >= 0.0 { DiscountPositive(similarity, weight); }
    else { DiscountNegative(similarity, weight); }
  }

  lemma RecencyMonotone(similarity: real, newer: nat, older: nat, w: nat -> real)
    requires IsWeight(w) && newer <= older
    ensures Recency(similarity, older, w) <= Recency(similarity, newer, w)
  {
    if similarity >= 0.0 { ScaleMonotone(similarity, w(older), w(newer)); }
    else { ScaleMonotone(similarity, 2.0 - w(newer), 2.0 - w(older)); }
  }

  /** At equal cosine of either sign, an older entry never scores above a newer one; and recency
      never changes the sign nor pushes a score above the cosine. */
  lemma OlderNeverOutscores(similarity: real, newer: nat, older: nat, w: nat -> real)
    requires IsWeight(w) && newer <= older
    ensures Recency(similarity, older, w) <= Recency(similarity, newer, w) <= similarity
    ensures similarity > 0.0 ==> Recency(similarity, older, w) > 0.0
    ensures similarity < 0.0 ==> 2.0 * similarity < Recency(similarity, older, w)
  {
    RecencyMonotone(similarity, newer, older, w);
    RecencyBounds(similarity, newer, w);
    RecencyBounds(similarity, older, w);
  }

  function Base(r: Row, maxSeq: Option<nat>, w: nat -> real): real {
    if maxSeq.Some? && r.num.Some? && r.num.value <= maxSeq.value
    then Recency(r.similarity, maxSeq.value - r.num.value, w)
    else r.similarity
  }

  function Score(r: Row, q: Query, maxSeq: Option<nat>, w: nat -> real): real {
    Base(r, maxSeq, w)
    + (match r.quality case PromotedRetro => q.qualityBoost case RelegatedRetro => -q.qualityPenalty case Neutral => 0.0)
    + if r.inContext then q.contextBoost else 0.0
  }

  // ----- ranking -----

  predicate Descending<T>(s: seq<T>, key: T -> real) {
    forall i, j :: 0 <= i < j < |s| ==> key(s[i]) >= key(s[j])
  }

  function Min(a: nat, b: nat): nat {
    if a <= b then a else b
  }

  /** The n best of the pool, best first; `rest` is what was cut off. */
  ghost predicate IsTop<T>(pool: seq<T>, n: nat, key: T -> real, top: seq<T>, rest: seq<T>) {
    && multiset(top + rest) == multiset(pool) && Descending(top + rest, key)
    && |top| == Min(n, |pool|)
  }

  /** Nothing that was cut off outranks anything that was kept. */
  lemma TopOutranksRest<T>(pool: seq<T>, n: nat, key: T -> real, top: seq<T>, rest: seq<T>)
    requires IsTop(pool, n, key, top, rest)
    ensures Descending(top, key)
    ensures forall x, y :: x in top && y in rest ==> key(y) <= key(x)
    ensures forall x :: x in pool <==> x in top || x in rest
  {
    var all := top + rest;
    forall i, j | 0 <= i < j < |top| ensures key(top[i]) >= key(top[j]) {
      assert all[i] == top[i] && all[j] == top[j];
    }
    forall x, y | x in top && y in rest ensures key(y) <= key(x) {
      var i :| 0 <= i < |top| && top[i] == x;
      var j :| 0 <= j < |rest| && rest[j] == y;
      assert all[i] == x && all[|top|+j] == y;
    }
    forall x ensures x in pool <==> x in top || x in rest {
      assert x in multiset(pool) <==> x in multiset(all);
    }
  }

  method PlaceOf<T>(sorted: seq<T>, x: T, key: T -> real) returns (k: nat)
    requires Descending(sorted, key)
    ensures k <= |sorted| && forall i :: k <= i < |sorted| ==> key(sorted[i]) < key(x)
    ensures k > 0 ==> key(sorted[k-1]) >= key(x)
  {
    k := |sorted|;
    while k > 0 && key(sorted[k-1]) < key(x)
      invariant k <= |sorted| && forall i :: k <= i < |sorted| ==> key(sorted[i]) < key(x)
    {
      k := k - 1;
    }
  }

  method Insert<T>(sorted: seq<T>, x: T, key: T -> real) returns (r: seq<T>)
    requires Descending(sorted, key)
    ensures Descending(r, key) && multiset(r) == multiset(sorted) + multiset{x}
  {
    var k := PlaceOf(sorted, x, key);
    r := sorted[..k] + [x] + sorted[k..];
    InsertedDescends(sorted, x, k, key);
    InsertedCounts(sorted, x, k);
  }

  lemma InsertedCounts<T>(sorted: seq<T>, x: T, k: nat)
    requires k <= |sorted|
    ensures multiset(sorted[..k] + [x] + sorted[k..]) == multiset(sorted) + multiset{x}
  {
    assert sorted == sorted[..k] + sorted[k..];
  }

  lemma InsertedDescends<T>(sorted: seq<T>, x: T, k: nat, key: T -> real)
    requires Descending(sorted, key) && k <= |sorted|
    requires forall i :: k <= i < |sorted| ==> key(sorted[i]) < key(x)
    requires k > 0 ==> key(sorted[k-1]) >= key(x)
    ensures Descending(sorted[..k] + [x] + sorted[k..], key)
  {
    forall i | 0 <= i < k ensures key(sorted[i]) >= key(x) {
      assert i < k - 1 ==> key(sorted[i]) >= key(sorted[k-1]);
    }
  }

  /** `sort` by descending key and `slice(0, n)`. */
  method TakeTop<T>(pool: seq<T>, n: nat, key: T -> real) returns (top: seq<T>, ghost rest: seq<T>)
    ensures IsTop(pool, n, key, top, rest)
  {
    var sorted: seq<T> := [];
    for k := 0 to |pool|
      invariant Descending(sorted, key) && multiset(sorted) == multiset(pool[..k])
    {
      assert pool[..k+1] == pool[..k] + [pool[k]];
      sorted := Insert(sorted, pool[k], key);
    }
    assert pool[..|pool|] == pool;
    assert |sorted| == |multiset(sorted)| == |pool|;
    top := sorted[..Min(n, |pool|)];
    rest := sorted[Min(n, |pool|)..];
    assert top + rest == sorted;
  }

  // ----- filters after the cut -----

  predicate ProvenanceMatches(provenance: string, selector: string) {
    if selector == "peer" then "peer:" <= provenance
    else if selector == "proxy" then "proxy:" <= provenance
    else provenance == selector
  }

  predicate MatchesAny(provenance: string, selectors: set<string>) {
    exists s :: s in selectors && ProvenanceMatches(provenance, s)
  }

  /** Excludes win; an empty include list includes everything. */
  predicate SourceAllowed(provenance: string, sources: set<string>, excluded: set<string>) {
    !MatchesAny(provenance, excluded) && (sources == {} || MatchesAny(provenance, sources))
  }

  predicate TierAllowed(t: Tier, tiers: set<Tier>, excluded: set<Tier>, includeQuarantined: bool) {
    (t != Quarantined || includeQuarantined) && t !in excluded && (tiers == {} || t in tiers)
  }

  datatype Filters = Filters(
    sources: set<string>, excludedSources: set<string>,
    tiers: set<Tier>, excludedTiers: set<Tier>, includeQuarantined: bool)

  predicate Allowed(e: Entry, f: Filters) {
    && SourceAllowed(e.row.provenance, f.sources, f.excludedSources)
    && TierAllowed(e.row.tier, f.tiers, f.excludedTiers, f.includeQuarantined)
  }

  /** `part` is what is left of `all` at the ascending positions `at`. */
  ghost predicate PicksAt<T>(all: seq<T>, part: seq<T>, at: seq<nat>) {
    && |at| == |part|
    && (forall i, j :: 0 <= i < j < |at| ==> at[i] < at[j])
    && (forall i :: 0 <= i < |at| ==> at[i] < |all| && all[at[i]] == part[i])
  }

  ghost predicate KeepsOrder<T>(all: seq<T>, part: seq<T>) {
    exists at: seq<nat> :: PicksAt(all, part, at)
  }

  /** What survives are exactly the allowed entries, in their order. */
  method ApplyFilters(entries: seq<Entry>, f: Filters) returns (kept: seq<Entry>)
    ensures KeepsOrder(entries, kept)
    ensures forall e :: e in kept <==> e in entries && Allowed(e, f)
  {
    kept := [];
    ghost var at: seq<nat> := [];
    for k := 0 to |entries|
      invariant PicksAt(entries[..k], kept, at)
      invariant forall e :: e in kept <==> e in entries[..k] && Allowed(e, f)
    {
      assert entries[..k+1] == entries[..k] + [entries[k]];
      if Allowed(entries[k], f) {
        kept := kept + [entries[k]];
        at := at + [k];
      }
    }
    assert entries[..|entries|] == entries;
    assert PicksAt(entries, kept, at);
  }

  /** The rules in order, the first that matches decides; what none matches is untrusted. */
  function DeriveTrustTier(provenance: string, rules: seq<(string, Tier)>): Tier {
    FirstRule(provenance, if rules == [] then [("self", Trusted)] else rules)
  }

  predicate RuleApplies(provenance: string, rule: (string, Tier)) {
    rule.0 == "*" || ProvenanceMatches(provenance, rule.0)
  }

  function FirstRule(provenance: string, rules: seq<(string, Tier)>): Tier {
    if rules == [] then Untrusted
    else if RuleApplies(provenance, rules[0]) then rules[0].1
    else FirstRule(provenance, rules[1..])
  }

  /** Without rules of its own a user trusts exactly the entries written on this machine. */
  lemma DefaultRulesTrustSelf(provenance: string)
    ensures DeriveTrustTier(provenance, []) == if provenance == "self" then Trusted else Untrusted
  {
    var rules := [("self", Trusted)];
    assert "self"[0] != "peer"[0] && "self"[1] != "proxy"[1] && |"self"| != |"*"|;
    assert RuleApplies(provenance, rules[0]) <==> provenance == "self";
    FirstRuleDecides(provenance, rules);
    assert provenance == "self" ==> Decides(provenance, rules, 0);
  }

  /** Rule k is the first that applies. */
  predicate Decides(provenance: string, rules: seq<(string, Tier)>, k: nat) {
    && k < |rules| && RuleApplies(provenance, rules[k])
    && forall j :: 0 <= j < k ==> !RuleApplies(provenance, rules[j])
  }

  /** The tier is that of the first rule that applies, and untrusted when none does. */
  lemma {:induction false} FirstRuleDecides(provenance: string, rules: seq<(string, Tier)>)
    ensures forall k: nat :: Decides(provenance, rules, k) ==> FirstRule(provenance, rules) == rules[k].1
    ensures (forall j :: 0 <= j < |rules| ==> !RuleApplies(provenance, rules[j])) ==>
      FirstRule(provenance, rules) == Untrusted
  {
    if rules != [] && !RuleApplies(provenance, rules[0]) {
      var rest := rules[1..];
      FirstRuleDecides(provenance, rest);
      forall k: nat | Decides(provenance, rules, k) ensures FirstRule(provenance, rules) == rules[k].1 {
        assert rules[k] == rest[k-1];
        forall j | 0 <= j < k - 1 ensures !RuleApplies(provenance, rest[j]) { assert rest[j] == rules[j+1]; }
        assert Decides(provenance, rest, k - 1);
      }
    }
  }

  /** The tier of an entry under rules of the user's own: that of the first rule that is "*" or selects the
      provenance, and untrusted when there is none. */
  lemma TierIs(provenance: string, rules: seq<(string, Tier)>)
    requires rules != []
    ensures forall k: nat ::
      && k < |rules| && (rules[k].0 == "*" || ProvenanceMatches(provenance, rules[k].0))
      && (forall j :: 0 <= j < k ==> rules[j].0 != "*" && !ProvenanceMatches(provenance, rules[j].0))
      ==> DeriveTrustTier(provenance, rules) == rules[k].1
    ensures (forall j :: 0 <= j < |rules| ==> rules[j].0 != "*" && !ProvenanceMatches(provenance, rules[j].0)) ==>
      DeriveTrustTier(provenance, rules) == Untrusted
  {
    FirstRuleDecides(provenance, rules);
    forall k: nat | k < |rules| && (rules[k].0 == "*" || ProvenanceMatches(provenance, rules[k].0))
      && forall j :: 0 <= j < k ==> rules[j].0 != "*" && !ProvenanceMatches(provenance, rules[j].0)
      ensures DeriveTrustTier(provenance, rules) == rules[k].1
    {
      assert Decides(provenance, rules, k);
    }
  }

  // ----- the query -----

  predicate Visible(r: Row, q: Query) {
    !r.hidden && (!q.constrained || r.matching)
  }

  /** What is searched: with a metadata filter only the visible rows, otherwise every embedded row. */
  predicate Searched(r: Row, q: Query) {
    r.embedded && (!q.constrained || Visible(r, q))
  }

  /** The floor is ignored under a metadata filter unless the caller asked for it. */
  predicate Floored(r: Row, q: Query) {
    !(q.constrained && !q.floorExplicit) && q.floor > -1.0 && r.similarity < q.floor
  }

  function BySimilarity(r: Row): real {
    r.similarity
  }

  function ByScore(e: Entry): real {
    e.score
  }

  function SearchedBy(q: Query): Row -> bool {
    r => Searched(r, q)
  }

  function ShownBy(q: Query): Row -> bool {
    r => Visible(r, q) && !Floored(r, q)
  }

  /** What a metadata filter promises to return: the matching rows that have a vector. */
  predicate Countable(r: Row) {
    r.embedded && !r.hidden && r.matching
  }

  function Select(rows: seq<Row>, p: Row -> bool): (kept: seq<Row>)
    ensures forall r :: r in kept <==> r in rows && p(r)
  {
    if rows == [] then []
    else
      var init := Select(rows[..|rows|-1], p);
      assert rows == rows[..|rows|-1] + [rows[|rows|-1]];
      if p(rows[|rows|-1]) then init + [rows[|rows|-1]] else init
  }

  function FetchLimit(q: Query, maxSeq: Option<nat>): nat {
    if maxSeq.Some? then q.limit * RECENCY_OVERFETCH_FACTOR else q.limit
  }

  function Entries(rows: seq<Row>, q: Query, maxSeq: Option<nat>, w: nat -> real): (es: seq<Entry>)
    ensures |es| == |rows|
    ensures forall i :: 0 <= i < |rows| ==> es[i].row == rows[i] && es[i].score == Score(rows[i], q, maxSeq, w)
  {
    if rows == [] then []
    else Entries(rows[..|rows|-1], q, maxSeq, w) + [Entry(rows[|rows|-1], Score(rows[|rows|-1], q, maxSeq, w))]
  }

  /** One cortex as one query finds it; `maxSeq` is its highest activity number. */
  datatype Cortex = Cortex(rows: seq<Row>, maxSeq: Option<nat>, available: bool)

  /** The entries of one cortex before sorting: the best rows by cosine, those shown, scored. */
  ghost predicate IsPool(c: Cortex, q: Query, w: nat -> real, found: seq<Row>, missed: seq<Row>, entries: seq<Entry>) {
    && IsTop(Select(c.rows, SearchedBy(q)), FetchLimit(q, c.maxSeq), BySimilarity, found, missed)
    && entries == Entries(Select(found, ShownBy(q)), q, c.maxSeq, w)
  }

  method RecallOneCortexWithVec(c: Cortex, q: Query, w: nat -> real)
    returns (entries: seq<Entry>, ghost found: seq<Row>, ghost missed: seq<Row>)
    ensures IsPool(c, q, w, found, missed, entries)
  {
    var hits;
    hits, missed := TakeTop(Select(c.rows, SearchedBy(q)), FetchLimit(q, c.maxSeq), BySimilarity);
    found := hits;
    var kept := Select(hits, ShownBy(q));
    entries := [];
    for k := 0 to |kept|
      invariant entries == Entries(kept[..k], q, c.maxSeq, w)
    {
      assert kept[..k+1][..k] == kept[..k];
      entries := entries + [Entry(kept[k], Score(kept[k], q, c.maxSeq, w))];
    }
    assert kept[..|kept|] == kept;
  }

  /** Sort, cut to the limit, filter. */
  method RankAndFilter(pool: seq<Entry>, limit: nat, f: Filters)
    returns (result: seq<Entry>, ghost top: seq<Entry>, ghost cut: seq<Entry>)
    ensures IsTop(pool, limit, ByScore, top, cut)
    ensures KeepsOrder(top, result)
    ensures forall e :: e in result <==> e in top && Allowed(e, f)
    ensures forall e :: e in result <==>
      && e in top
      && (forall s :: s in f.excludedSources ==> !ProvenanceMatches(e.row.provenance, s))
      && (f.sources != {} ==> exists s :: s in f.sources && ProvenanceMatches(e.row.provenance, s))
      && e.row.tier !in f.excludedTiers && (f.tiers != {} ==> e.row.tier in f.tiers)
      && (e.row.tier == Quarantined ==> f.includeQuarantined)
  {
    var best;
    best, cut := TakeTop(pool, limit, ByScore);
    top := best;
    result := ApplyFilters(best, f);
  }

  /** All available cortexes are pooled; one that fails contributes nothing. */
  method PoolCortexes(cs: seq<Cortex>, q: Query, w: nat -> real) returns (pool: seq<Entry>, ghost parts: seq<seq<Entry>>)
    ensures |parts| == |cs| && pool == Flatten(parts)
    ensures forall i :: 0 <= i < |cs| ==>
      if cs[i].available then exists found, missed :: IsPool(cs[i], q, w, found, missed, parts[i]) else parts[i] == []
  {
    pool, parts := [], [];
    for k := 0 to |cs|
      invariant |parts| == k && pool == Flatten(parts)
      invariant forall i :: 0 <= i < k ==>
        if cs[i].available then exists found, missed :: IsPool(cs[i], q, w, found, missed, parts[i]) else parts[i] == []
    {
      var entries := [];
      if cs[k].available {
        ghost var found, missed;
        entries, found, missed := RecallOneCortexWithVec(cs[k], q, w);
        assert IsPool(cs[k], q, w, found, missed, entries);
      }
      assert (parts + [entries])[..k] == parts;
      pool, parts := pool + entries, parts + [entries];
    }
  }

  function Flatten(parts: seq<seq<Entry>>): seq<Entry> {
    if parts == [] then [] else Flatten(parts[..|parts|-1]) + parts[|parts|-1]
  }

  /** The pool holds the parts one behind the other, and nothing else. */
  lemma {:induction false} PartInPlace(parts: seq<seq<Entry>>, i: nat)
    requires i < |parts|
    ensures Flatten(parts[..0]) == [] && Flatten(parts[..i]) + parts[i] == Flatten(parts[..i+1]) <= Flatten(parts)
    decreases |parts|
  {
    if i == |parts| - 1 {
      assert parts[..i+1] == parts;
    } else {
      var init := parts[..|parts|-1];
      PartInPlace(init, i);
      assert init[..i] == parts[..i] && init[..i+1] == parts[..i+1];
    }
  }

  lemma {:induction false} SelectAll(rows: seq<Row>, p: Row -> bool)
    requires forall r :: r in rows ==> p(r)
    ensures Select(rows, p) == rows
  {
    if rows != [] {
      assert rows[|rows|-1] in rows;
      SelectAll(rows[..|rows|-1], p);
    }
  }

  /** With a metadata filter and no floor of the caller's, the count depends on the matching embedded
      rows alone, not on how the query compares with them. */
  lemma ConstrainedCount(c: Cortex, q: Query, w: nat -> real, found: seq<Row>, missed: seq<Row>,
                         pool: seq<Entry>, top: seq<Entry>, cut: seq<Entry>)
    requires q.constrained && !q.floorExplicit
    requires IsPool(c, q, w, found, missed, pool) && IsTop(pool, q.limit, ByScore, top, cut)
    ensures |top| == Min(q.limit, |Select(c.rows, Countable)|)
  {
    TopOutranksRest(Select(c.rows, SearchedBy(q)), FetchLimit(q, c.maxSeq), BySimilarity, found, missed);
    SelectAll(found, ShownBy(q));
    SelectSame(c.rows, SearchedBy(q), Countable);
  }

  /** At equal cosine and equal curator and context terms, an older row never outscores a newer one. */
  lemma OlderRowNeverOutscores(newer: Row, older: Row, q: Query, maxSeq: nat, w: nat -> real)
    requires IsWeight(w) && newer.similarity == older.similarity
    requires newer.quality == older.quality && newer.inContext == older.inContext
    requires newer.num.Some? && older.num.Some? && older.num.value <= newer.num.value <= maxSeq
    ensures Score(older, q, Some(maxSeq), w) <= Score(newer, q, Some(maxSeq), w)
  {
    RecencyMonotone(newer.similarity, maxSeq - newer.num.value, maxSeq - older.num.value, w);
  }

  /** What curation and context add: a promoted retro gets the boost, a relegated one loses the penalty, and a
      row of the active context gets its boost. */
  lemma ScoreTerms(r: Row, q: Query, maxSeq: Option<nat>, w: nat -> real)
    ensures var neutral := Score(r.(quality := Neutral), q, maxSeq, w);
      && Score(r.(quality := PromotedRetro), q, maxSeq, w) == neutral + q.qualityBoost
      && Score(r.(quality := RelegatedRetro), q, maxSeq, w) == neutral - q.qualityPenalty
    ensures Score(r.(inContext := true), q, maxSeq, w) == Score(r.(inContext := false), q, maxSeq, w) + q.contextBoost
  {
    var base := Base(r, maxSeq, w);
    assert forall quality, inContext :: Base(r.(quality := quality, inContext := inContext), maxSeq, w) == base;
    var on, off := Score(r.(inContext := true), q, maxSeq, w), Score(r.(inContext := false), q, maxSeq, w);
    assert on == off + q.contextBoost;
  }

  /** A row with none of these keeps its cosine, discounted by its distance, a negative one away from zero; the
      newest row, or one without a number, keeps all of it. */
  lemma PlainScore(r: Row, q: Query, maxSeq: Option<nat>, w: nat -> real)
    requires IsWeight(w) && r.quality.Neutral? && !r.inContext
    ensures r.num.None? || maxSeq.None? || r.num == maxSeq ==> Score(r, q, maxSeq, w) == r.similarity
    ensures r.num.Some? && maxSeq.Some? && r.num.value <= maxSeq.value ==>
      var weight := w(maxSeq.value - r.num.value);
      Score(r, q, maxSeq, w) == r.similarity * if r.similarity >= 0.0 then weight else 2.0 - weight
  {
    if r.num == maxSeq && r.num.Some? {
      assert Recency(r.similarity, 0, w) == r.similarity;
    }
  }

  function Standing(quality: Quality): nat {
    match quality
    case RelegatedRetro => 0
    case Neutral => 1
    case PromotedRetro => 2
  }

  /** Alike but for what curation and context say, and the first is the better off. */
  predicate BetterOff(a: Row, b: Row, q: Query) {
    && a.similarity == b.similarity && a.num == b.num
    && q.qualityBoost > 0.0 && q.qualityPenalty > 0.0 && q.contextBoost >= 0.0
    && Standing(a.quality) > Standing(b.quality) && (b.inContext ==> a.inContext)
  }

  /** Of two rows that differ in nothing else, the better curated one is never cut off in favour of the
      other. */
  lemma BetterOffIsKept(pool: seq<Entry>, q: Query, maxSeq: Option<nat>, w: nat -> real,
                        top: seq<Entry>, cut: seq<Entry>, a: Entry, b: Entry)
    requires IsTop(pool, q.limit, ByScore, top, cut) && a in pool && b in pool && BetterOff(a.row, b.row, q)
    requires a.score == Score(a.row, q, maxSeq, w) && b.score == Score(b.row, q, maxSeq, w)
    ensures a.score > b.score && (b in top ==> a in top)
  {
    TopOutranksRest(pool, q.limit, ByScore, top, cut);
    assert Base(a.row, maxSeq, w) == Base(b.row, maxSeq, w);
    assert ByScore(a) == a.score && ByScore(b) == b.score;
  }

  /** The floor counts unless a metadata filter is on and the caller gave none, and it is above -1. */
  predicate FloorApplies(q: Query) {
    (q.constrained ==> q.floorExplicit) && q.floor > -1.0
  }

  /** What one cortex contributes: each row found that is current, meets the filters, and whose cosine is no
      lower than the floor, with its score, and nothing else. */
  lemma PoolIff(c: Cortex, q: Query, w: nat -> real, found: seq<Row>, missed: seq<Row>, entries: seq<Entry>, e: Entry)
    requires IsPool(c, q, w, found, missed, entries)
    ensures e in entries <==>
      && e.row in found && e.score == Score(e.row, q, c.maxSeq, w)
      && !e.row.hidden && (q.constrained ==> e.row.matching)
      && (FloorApplies(q) ==> e.row.similarity >= q.floor)
  {
    var shown := Select(found, ShownBy(q));
    if e.row in shown && e.score == Score(e.row, q, c.maxSeq, w) {
      var k :| 0 <= k < |shown| && shown[k] == e.row;
      assert entries[k] == e;
    }
  }

  /** What the search finds: only rows with a vector, and with a metadata filter only current rows that meet it;
      five times the limit of them when rows are numbered, or the limit.  A row it misses is no nearer than any
      it finds, and then it has found as many as it may. */
  lemma SearchIff(c: Cortex, q: Query, w: nat -> real, found: seq<Row>, missed: seq<Row>, entries: seq<Entry>, r: Row)
    requires IsPool(c, q, w, found, missed, entries)
    ensures |found| <= if c.maxSeq.Some? then 5 * q.limit else q.limit
    ensures r in found || r in missed <==> r in c.rows && r.embedded && (q.constrained ==> !r.hidden && r.matching)
    ensures r in missed ==>
      && |found| == (if c.maxSeq.Some? then 5 * q.limit else q.limit)
      && forall x :: x in found ==> r.similarity <= x.similarity
  {
    var searched := Select(c.rows, SearchedBy(q));
    TopOutranksRest(searched, FetchLimit(q, c.maxSeq), BySimilarity, found, missed);
    assert |multiset(found + missed)| == |multiset(searched)| && |found + missed| == |searched|;
    forall x | x in found && r in missed ensures r.similarity <= x.similarity {
      assert BySimilarity(r) <= BySimilarity(x);
    }
  }

  /** "peer" and "proxy" stand for all of their kind; any other selector for one provenance. */
  lemma SelectorMeans(provenance: string, selector: string)
    ensures ProvenanceMatches(provenance, selector) <==>
      if selector == "peer" || selector == "proxy"
      then exists name: string :: provenance == selector + ":" + name
      else provenance == selector
  {
    if selector == "peer" && "peer:" <= provenance {
      assert provenance == "peer" + ":" + provenance[5..];
    }
    if selector == "proxy" && "proxy:" <= provenance {
      assert provenance == "proxy" + ":" + provenance[6..];
    }
    if name: string :| provenance == selector + ":" + name && (selector == "peer" || selector == "proxy") {
      assert selector + ":" <= provenance;
    }
  }

  lemma {:induction false} SelectSame(rows: seq<Row>, p: Row -> bool, p': Row -> bool)
    requires forall r :: p(r) == p'(r)
    ensures Select(rows, p) == Select(rows, p')
  {
    if rows != [] { SelectSame(rows[..|rows|-1], p, p'); }
  }

  // ----- hidden rows and the search limit -----

  predicate EmbeddedHidden(r: Row) {
    r.embedded && r.hidden
  }

  predicate EmbeddedShown(r: Row) {
    r.embedded && !r.hidden
  }

  /** Selecting keeps every copy of the rows it keeps. */
  lemma {:induction false} SelectCounts(rows: seq<Row>, p: Row -> bool)
    ensures forall r :: multiset(Select(rows, p))[r] == if p(r) then multiset(rows)[r] else 0
  {
    if rows != [] {
      SelectCounts(rows[..|rows|-1], p);
      assert rows == rows[..|rows|-1] + [rows[|rows|-1]];
    }
  }

  lemma FewerRows(a: seq<Row>, b: seq<Row>)
    requires multiset(a) <= multiset(b)
    ensures |a| <= |b|
  {
    assert multiset(b) == multiset(a) + (multiset(b) - multiset(a));
    assert |multiset(a)| == |a| && |multiset(b)| == |b|;
  }

  lemma SizesAdd(all: seq<Row>, a: seq<Row>, b: seq<Row>)
    requires multiset(all) == multiset(a) + multiset(b)
    ensures |all| == |a| + |b|
  {
    assert multiset(a + b) == multiset(all);
    assert |multiset(a + b)| == |a + b| && |multiset(all)| == |all|;
  }

  /** Every embedded row is hidden or shown. */
  lemma EmbeddedCounts(rows: seq<Row>, p: Row -> bool)
    requires forall r :: p(r) == r.embedded
    ensures multiset(Select(rows, p)) == multiset(Select(rows, EmbeddedHidden)) + multiset(Select(rows, EmbeddedShown))
    ensures |Select(rows, p)| == |Select(rows, EmbeddedHidden)| + |Select(rows, EmbeddedShown)|
  {
    SelectCounts(rows, p);
    SelectCounts(rows, EmbeddedHidden);
    SelectCounts(rows, EmbeddedShown);
    SizesAdd(Select(rows, p), Select(rows, EmbeddedHidden), Select(rows, EmbeddedShown));
  }

  lemma {:induction false} SelectWithin(rows: seq<Row>, p: Row -> bool, p': Row -> bool)
    requires forall r :: r in rows ==> p(r) == p'(r)
    ensures Select(rows, p) == Select(rows, p')
  {
    if rows != [] {
      assert rows[|rows|-1] in rows;
      SelectWithin(rows[..|rows|-1], p, p');
    }
  }

  /** The same rows as another query compares with them. */
  function WithCosines(rows: seq<Row>, cosines: seq<real>): (rs: seq<Row>)
    requires |cosines| == |rows|
    ensures |rs| == |rows| && forall i :: 0 <= i < |rs| ==> rs[i] == rows[i].(similarity := cosines[i])
  {
    seq(|rows|, i requires 0 <= i < |rows| => rows[i].(similarity := cosines[i]))
  }

  lemma {:induction false} CosinesKeepCounts(rows: seq<Row>, cosines: seq<real>)
    requires |cosines| == |rows|
    ensures |Select(WithCosines(rows, cosines), EmbeddedHidden)| == |Select(rows, EmbeddedHidden)|
    ensures |Select(WithCosines(rows, cosines), EmbeddedShown)| == |Select(rows, EmbeddedShown)|
  {
    if rows != [] {
      var n := |rows| - 1;
      CosinesKeepCounts(rows[..n], cosines[..n]);
      assert WithCosines(rows, cosines)[..n] == WithCosines(rows[..n], cosines[..n]);
    }
  }

  /** A recall that filters nothing before its search and applies no floor. */
  predicate Unfiltered(q: Query) {
    !q.constrained && q.floor <= -1.0
  }

  /** What it ought to return: as many shown rows as it was asked for, or all there are. */
  function Wanted(rows: seq<Row>, q: Query): nat {
    Min(q.limit, |Select(rows, EmbeddedShown)|)
  }

  /** Whatever the cosines, the search finds enough shown rows beside all the hidden ones. */
  predicate RoomForHidden(rows: seq<Row>, maxSeq: Option<nat>, q: Query) {
    Wanted(rows, q) == 0 || |Select(rows, EmbeddedHidden)| + Wanted(rows, q) <= FetchLimit(q, maxSeq)
  }

  /** A search finds at most the rows there are of a kind. */
  lemma FoundOfKind(c: Cortex, q: Query, found: seq<Row>, missed: seq<Row>, p: Row -> bool)
    requires multiset(found + missed) == multiset(Select(c.rows, SearchedBy(q)))
    ensures |Select(found, p)| <= |Select(c.rows, p)|
  {
    SelectCounts(c.rows, SearchedBy(q));
    SelectCounts(c.rows, p);
    SelectCounts(found, p);
    assert multiset(found + missed) == multiset(found) + multiset(missed);
    FewerRows(Select(found, p), Select(c.rows, p));
  }

  /** What the search finds, told apart. */
  lemma FoundCounts(c: Cortex, q: Query, w: nat -> real, found: seq<Row>, missed: seq<Row>, pool: seq<Entry>)
    requires Unfiltered(q) && IsPool(c, q, w, found, missed, pool)
    ensures var h, v := |Select(c.rows, EmbeddedHidden)|, |Select(c.rows, EmbeddedShown)|;
      && |found| == Min(FetchLimit(q, c.maxSeq), h + v)
      && |pool| == |Select(found, EmbeddedShown)| <= v
      && |found| - |pool| == |Select(found, EmbeddedHidden)| <= h
  {
    PoolMeans(c, q, w, found, missed, pool);
    FoundOfKind(c, q, found, missed, EmbeddedHidden);
    FoundOfKind(c, q, found, missed, EmbeddedShown);
    FoundAreShown(c, q, found, missed);
  }

  lemma PoolMeans(c: Cortex, q: Query, w: nat -> real, found: seq<Row>, missed: seq<Row>, pool: seq<Entry>)
    requires Unfiltered(q) && IsPool(c, q, w, found, missed, pool)
    ensures multiset(found + missed) == multiset(Select(c.rows, SearchedBy(q)))
    ensures |found| == Min(FetchLimit(q, c.maxSeq), |Select(c.rows, EmbeddedHidden)| + |Select(c.rows, EmbeddedShown)|)
    ensures |pool| == |Select(found, ShownBy(q))|
  {
    EmbeddedCounts(c.rows, SearchedBy(q));
  }

  lemma FoundAreShown(c: Cortex, q: Query, found: seq<Row>, missed: seq<Row>)
    requires Unfiltered(q) && multiset(found + missed) == multiset(Select(c.rows, SearchedBy(q)))
    ensures Select(found, ShownBy(q)) == Select(found, EmbeddedShown)
    ensures |found| == |Select(found, EmbeddedHidden)| + |Select(found, EmbeddedShown)|
  {
    forall r: Row | r in found ensures r.embedded {
      assert r in found + missed && r in multiset(Select(c.rows, SearchedBy(q)));
      assert r in Select(c.rows, SearchedBy(q));
    }
    SelectWithin(found, ShownBy(q), EmbeddedShown);
    SelectAll(found, SearchedBy(q));
    EmbeddedCounts(found, SearchedBy(q));
  }

  /** Enough room: no cosines make the recall come up short. */
  lemma RoomSuffices(c: Cortex, q: Query, w: nat -> real, found: seq<Row>, missed: seq<Row>, pool: seq<Entry>)
    requires Unfiltered(q) && IsPool(c, q, w, found, missed, pool) && RoomForHidden(c.rows, c.maxSeq, q)
    ensures Min(q.limit, |pool|) == Wanted(c.rows, q)
  {
    FoundCounts(c, q, w, found, missed, pool);
  }

  /** Sorting is possible. */
  lemma TopExists<T>(pool: seq<T>, n: nat, key: T -> real) returns (top: seq<T>, rest: seq<T>)
    ensures IsTop(pool, n, key, top, rest)
  {
    var sorted := SortedExists(pool, key);
    assert |sorted| == |multiset(sorted)| == |pool|;
    top, rest := sorted[..Min(n, |pool|)], sorted[Min(n, |pool|)..];
    assert top + rest == sorted;
  }

  lemma {:induction false} SortedExists<T>(pool: seq<T>, key: T -> real) returns (sorted: seq<T>)
    ensures Descending(sorted, key) && multiset(sorted) == multiset(pool)
  {
    if pool == [] {
      sorted := [];
    } else {
      var init, x := pool[..|pool|-1], pool[|pool|-1];
      assert pool == init + [x];
      var before := SortedExists(init, key);
      var k := |before|;
      while k > 0 && key(before[k-1]) < key(x)
        invariant 0 <= k <= |before| && forall i :: k <= i < |before| ==> key(before[i]) < key(x)
      {
        k := k - 1;
      }
      InsertedDescends(before, x, k, key);
      InsertedCounts(before, x, k);
      sorted := before[..k] + [x] + before[k..];
    }
  }

  /** Cosines under which every hidden row is nearer than any shown one. */
  function HiddenFirst(rows: seq<Row>): (cosines: seq<real>)
    ensures |cosines| == |rows|
  {
    seq(|rows|, i requires 0 <= i < |rows| => if rows[i].hidden then 1.0 else 0.0)
  }

  /** Hidden rows sort before shown ones. */
  lemma HiddenSortFirst(hs: seq<Row>, vs: seq<Row>)
    requires forall r :: r in hs ==> r.similarity == 1.0
    requires forall r :: r in vs ==> r.similarity == 0.0
    ensures Descending(hs + vs, BySimilarity)
  {
    var sorted := hs + vs;
    forall i, j | 0 <= i < j < |sorted| ensures BySimilarity(sorted[i]) >= BySimilarity(sorted[j]) {
      assert sorted[j] in hs || sorted[j] in vs;
      if i < |hs| { assert sorted[i] in hs; } else { assert sorted[j] == vs[j-|hs|]; }
    }
  }

  lemma {:induction false} SelectFront(a: seq<Row>, b: seq<Row>, p: Row -> bool)
    requires (forall r :: r in a ==> p(r)) && forall r :: r in b ==> !p(r)
    ensures Select(a + b, p) == a
    decreases |b|
  {
    if b == [] {
      assert a + b == a;
      SelectAll(a, p);
    } else {
      assert (a + b)[..|a + b|-1] == a + b[..|b|-1] && b[|b|-1] in b;
      SelectFront(a, b[..|b|-1], p);
    }
  }

  /** Of hidden rows followed by shown ones, a front part is hidden as far as there are any. */
  lemma FrontIsHidden(hs: seq<Row>, vs: seq<Row>, n: nat)
    requires n <= |hs| + |vs|
    requires forall r :: r in hs ==> EmbeddedHidden(r)
    requires forall r :: r in vs ==> !EmbeddedHidden(r)
    ensures |Select((hs + vs)[..n], EmbeddedHidden)| == Min(n, |hs|)
  {
    var part := hs[..Min(n, |hs|)];
    assert (hs + vs)[..n] == part + vs[..n-|part|];
    SelectFront(part, vs[..n-|part|], EmbeddedHidden);
  }

  /** Then the search finds hidden rows as long as there are any. */
  lemma HiddenFoundFirst(rows: seq<Row>, maxSeq: Option<nat>, q: Query) returns (found: seq<Row>, missed: seq<Row>)
    requires Unfiltered(q)
    ensures var rows' := WithCosines(rows, HiddenFirst(rows));
      && IsTop(Select(rows', SearchedBy(q)), FetchLimit(q, maxSeq), BySimilarity, found, missed)
      && |Select(found, EmbeddedHidden)| == Min(|found|, |Select(rows', EmbeddedHidden)|)
  {
    var rows', n := WithCosines(rows, HiddenFirst(rows)), FetchLimit(q, maxSeq);
    var searched, hs, vs := Select(rows', SearchedBy(q)), Select(rows', EmbeddedHidden), Select(rows', EmbeddedShown);
    EmbeddedCounts(rows', SearchedBy(q));
    forall r: Row | r in rows' ensures r.similarity == if r.hidden then 1.0 else 0.0 {}
    HiddenSortFirst(hs, vs);
    found, missed := (hs + vs)[..Min(n, |searched|)], (hs + vs)[Min(n, |searched|)..];
    assert found + missed == hs + vs;
    FrontIsHidden(hs, vs, Min(n, |searched|));
  }

  /** What a recall with these cosines can return. */
  ghost predicate Recalls(rows: seq<Row>, cosines: seq<real>, maxSeq: Option<nat>, q: Query, w: nat -> real, top: seq<Entry>) {
    && |cosines| == |rows|
    && exists found, missed, pool, cut ::
         && IsPool(Cortex(WithCosines(rows, cosines), maxSeq, true), q, w, found, missed, pool)
         && IsTop(pool, q.limit, ByScore, top, cut)
  }

  /** Too little room: with the hidden rows nearest, the recall comes up short. */
  lemma CrowdedOut(rows: seq<Row>, maxSeq: Option<nat>, q: Query, w: nat -> real) returns (top: seq<Entry>)
    requires Unfiltered(q) && !RoomForHidden(rows, maxSeq, q)
    ensures Recalls(rows, HiddenFirst(rows), maxSeq, q, w, top) && |top| < Wanted(rows, q)
  {
    var c := Cortex(WithCosines(rows, HiddenFirst(rows)), maxSeq, true);
    var found, missed := HiddenFoundFirst(rows, maxSeq, q);
    var pool := Entries(Select(found, ShownBy(q)), q, maxSeq, w);
    assert IsPool(c, q, w, found, missed, pool);
    FoundCounts(c, q, w, found, missed, pool);
    CosinesKeepCounts(rows, HiddenFirst(rows));
    var cut;
    top, cut := TopExists(pool, q.limit, ByScore);
  }

  /** Without a metadata filter hidden rows are dropped only after the search.  An unfiltered recall
      returns what it ought to whatever the query, exactly when the search has room for all hidden
      rows beside the wanted ones. */
  lemma HiddenRowsCrowdOutIff(rows: seq<Row>, maxSeq: Option<nat>, q: Query, w: nat -> real)
    requires Unfiltered(q)
    ensures RoomForHidden(rows, maxSeq, q) <==>
      forall cosines, top :: Recalls(rows, cosines, maxSeq, q, w, top) ==> |top| == Wanted(rows, q)
  {
    if RoomForHidden(rows, maxSeq, q) {
      forall cosines, top | Recalls(rows, cosines, maxSeq, q, w, top) ensures |top| == Wanted(rows, q) {
        var c := Cortex(WithCosines(rows, cosines), maxSeq, true);
        var found, missed, pool, cut :| IsPool(c, q, w, found, missed, pool) && IsTop(pool, q.limit, ByScore, top, cut);
        CosinesKeepCounts(rows, cosines);
        RoomSuffices(c, q, w, found, missed, pool);
      }
    } else {
      var top := CrowdedOut(rows, maxSeq, q, w);
    }
  }
}
