/**
 How the lines of a cortex are laid out in the branch's tree: numbered pages of about a thousand
 lines.  An append goes to the highest six-digit page, or opens the next one when that is full.
 Readers concatenate the six-digit pages in order.

 Listing the tree and reading a page can fail, and the writer then carries on as if there were no
 pages or no content.  The module says exactly when an append keeps every line, and that a
 branch built by healthy appends reads back as its commits' lines.
 */
module Pages {
  import opened L1Log

  const PAGE_SIZE: nat := 1000
  const LAST_PAGE: nat := 999_999

  /** Page number to the page's non-empty lines. */
  type Tree = map<nat, seq<Line>>

  /** The pages whose names have six digits. */
  function Listed(tree: Tree): set<nat> {
    set n | n in tree && n <= LAST_PAGE
  }

  lemma HighestExists(s: set<nat>)
    requires s != {}
    ensures exists m :: m in s && forall x :: x in s ==> x <= m
  {
    var y :| y in s;
    var rest := s - {y};
    assert s == rest + {y};
    if rest == {} {
    } else {
      HighestExists(rest);
      var m :| m in rest && forall x :: x in rest ==> x <= m;
      var top := if m < y then y else m;
      assert top in s && forall x :: x in s ==> x <= top;
    }
  }

  ghost function Highest(s: set<nat>): (m: nat)
    requires s != {}
    ensures m in s && forall x :: x in s ==> x <= m
  {
    HighestExists(s);
    var m :| m in s && forall x :: x in s ==> x <= m;
    m
  }

  // ----- the writer -----

  /** The page to write and the lines it is taken to hold already. */
  ghost function ActivePage(tree: Tree, listed: bool, read: bool): (nat, seq<Line>) {
    if !listed || Listed(tree) == {} then (1, [])
    else
      var latest := Highest(Listed(tree));
      var content := if read then tree[latest] else [];
      if |content| >= PAGE_SIZE then (latest + 1, []) else (latest, content)
  }

  ghost function Appended(tree: Tree, lines: seq<Line>, listed: bool, read: bool): Tree {
    var (page, existing) := ActivePage(tree, listed, read);
    tree[page := existing + lines]
  }

  // ----- the readers -----

  function Page(tree: Tree, n: nat): seq<Line> {
    if n in tree && n <= LAST_PAGE then tree[n] else []
  }

  function ReadBelow(tree: Tree, n: nat): seq<Line> {
    if n == 0 then [] else ReadBelow(tree, n - 1) + Page(tree, n - 1)
  }

  ghost function ReadAll(tree: Tree): seq<Line> {
    if Listed(tree) == {} then [] else ReadBelow(tree, Highest(Listed(tree)) + 1)
  }

  // ----- reading after a page was replaced -----

  lemma {:induction false} ReadBelowPast(tree: Tree, m: nat, n: nat)
    requires m <= n && forall k: nat :: m <= k < n ==> Page(tree, k) == []
    ensures ReadBelow(tree, n) == ReadBelow(tree, m)
  {
    if m < n { ReadBelowPast(tree, m, n - 1); }
  }

  /** Any bound past the last page reads everything. */
  lemma ReadAllIs(tree: Tree, n: nat)
    requires forall k :: k in Listed(tree) ==> k < n
    ensures ReadAll(tree) == ReadBelow(tree, n)
  {
    var top := if Listed(tree) == {} then 0 else Highest(Listed(tree)) + 1;
    forall k: nat | top <= k < n ensures Page(tree, k) == [] {
      assert k !in Listed(tree);
    }
    ReadBelowPast(tree, top, n);
  }

  function Between(tree: Tree, m: nat, n: nat): seq<Line>
    requires m <= n
    decreases n
  {
    if m == n then [] else Between(tree, m, n - 1) + Page(tree, n - 1)
  }

  lemma {:induction false} SplitRead(tree: Tree, m: nat, n: nat)
    requires m <= n
    ensures ReadBelow(tree, n) == ReadBelow(tree, m) + Between(tree, m, n)
  {
    if m < n { SplitRead(tree, m, n - 1); }
  }

  lemma {:induction false} BetweenUnread(tree: Tree, p: nat, content: seq<Line>, m: nat, n: nat)
    requires p < m <= n
    ensures Between(tree[p := content], m, n) == Between(tree, m, n)
  {
    if m < n { BetweenUnread(tree, p, content, m, n - 1); }
  }

  lemma OnePage(tree: Tree, p: nat)
    ensures ReadBelow(tree, p + 1) == ReadBelow(tree, p) + Page(tree, p)
  {
  }

  lemma ReplacePage(tree: Tree, p: nat, content: seq<Line>, n: nat)
    requires p <= LAST_PAGE && p < n
    ensures ReadBelow(tree, n) == ReadBelow(tree, p) + Page(tree, p) + Between(tree, p + 1, n)
    ensures ReadBelow(tree[p := content], n) == ReadBelow(tree, p) + content + Between(tree, p + 1, n)
  {
    var tree' := tree[p := content];
    SplitRead(tree, p + 1, n);
    SplitRead(tree', p + 1, n);
    OnePage(tree, p);
    OnePage(tree', p);
    ReplaceUnread(tree, p, content, p);
    BetweenUnread(tree, p, content, p + 1, n);
  }

  lemma {:induction false} ReplaceUnread(tree: Tree, p: nat, content: seq<Line>, n: nat)
    requires p > LAST_PAGE || n <= p
    ensures ReadBelow(tree[p := content], n) == ReadBelow(tree, n)
  {
    if n > 0 { ReplaceUnread(tree, p, content, n - 1); }
  }

  /** Extending the last page extends what is read. */
  lemma ExtendLast(tree: Tree, p: nat, lines: seq<Line>)
    requires p <= LAST_PAGE && forall k :: k in Listed(tree) ==> k <= p
    ensures ReadAll(tree[p := Page(tree, p) + lines]) == ReadAll(tree) + lines
  {
    var tree' := tree[p := Page(tree, p) + lines];
    ReadAllIs(tree, p + 1);
    assert Listed(tree') <= Listed(tree) + {p};
    ReadAllIs(tree', p + 1);
    ReplaceUnread(tree, p, Page(tree, p) + lines, p);
    OnePage(tree, p);
    OnePage(tree', p);
  }

  // ----- when an append loses nothing -----

  /** The writer saw the page it writes as it is, or the page was empty; and there is a page left
      to open. */
  ghost predicate AppendIsSafe(tree: Tree, listed: bool, read: bool) {
    if !listed then Page(tree, 1) == []
    else if Listed(tree) == {} then true
    else
      var latest := Highest(Listed(tree));
      if read then latest == LAST_PAGE ==> |tree[latest]| < PAGE_SIZE else tree[latest] == []
  }

  /** With the listing and the page read, a safe append adds its lines at the end of the log. */
  lemma SafeAppendExtends(tree: Tree, lines: seq<Line>)
    requires AppendIsSafe(tree, true, true)
    ensures ReadAll(Appended(tree, lines, true, true)) == ReadAll(tree) + lines
  {
    var (page, existing) := ActivePage(tree, true, true);
    assert page !in Listed(tree) ==> Page(tree, page) == [];
    ExtendLast(tree, page, lines);
  }

  /** The writer takes the page to hold what it holds, or nothing; it is safe when it is right. */
  lemma SafeMeans(tree: Tree, listed: bool, read: bool)
    ensures var (p, existing) := ActivePage(tree, listed, read);
      if p <= LAST_PAGE
      then (existing == Page(tree, p) || existing == []) && (AppendIsSafe(tree, listed, read) <==> existing == Page(tree, p))
      else !AppendIsSafe(tree, listed, read)
  {
    var (p, existing) := ActivePage(tree, listed, read);
    assert p !in Listed(tree) && p <= LAST_PAGE ==> Page(tree, p) == [];
  }

  lemma ReadAllReplaced(tree: Tree, p: nat, content: seq<Line>)
    ensures p > LAST_PAGE ==> ReadAll(tree[p := content]) == ReadAll(tree)
    ensures p <= LAST_PAGE ==> exists a, b ::
      ReadAll(tree) == a + Page(tree, p) + b && ReadAll(tree[p := content]) == a + content + b
  {
    var tree' := tree[p := content];
    var n := if Listed(tree) == {} then p + 1 else Highest(Listed(tree)) + p + 1;
    assert Listed(tree') <= Listed(tree) + {p};
    ReadAllIs(tree, n);
    ReadAllIs(tree', n);
    if p <= LAST_PAGE { ReplacePage(tree, p, content, n); } else { ReplaceUnread(tree, p, content, n); }
  }

  /** An append keeps every line and adds its own exactly when it is safe: a failed listing
      overwrites page 1, a failed read overwrites the latest page, and a page past 999999 is
      written but never read. */
  lemma AppendKeepsLinesIff(tree: Tree, lines: seq<Line>, listed: bool, read: bool)
    requires lines != []
    ensures multiset(ReadAll(Appended(tree, lines, listed, read))) == multiset(ReadAll(tree)) + multiset(lines)
      <==> AppendIsSafe(tree, listed, read)
  {
    var (p, existing) := ActivePage(tree, listed, read);
    SafeMeans(tree, listed, read);
    ReadAllReplaced(tree, p, existing + lines);
    var before, after := ReadAll(tree), ReadAll(tree[p := existing + lines]);
    if p <= LAST_PAGE {
      var a, b :| before == a + Page(tree, p) + b && after == a + (existing + lines) + b;
      ReplacedCounts(a, Page(tree, p), existing, lines, b);
    } else {
      assert |multiset(before) + multiset(lines)| == |before| + |lines| && |multiset(after)| == |before|;
    }
  }

  lemma ReplacedCounts(a: seq<Line>, page: seq<Line>, existing: seq<Line>, lines: seq<Line>, b: seq<Line>)
    requires existing == page || existing == []
    ensures multiset(a + (existing + lines) + b) == multiset(a + page + b) + multiset(lines)
      <==> existing == page
  {
    var after, before := a + (existing + lines) + b, a + page + b;
    assert |multiset(after)| == |after| && |multiset(before) + multiset(lines)| == |before| + |lines|;
  }

  // ----- a whole branch -----

  ghost function TreeOf(h: History): Tree {
    if h == [] then map[] else Appended(TreeOf(h[..|h|-1]), h[|h|-1].lines, true, true)
  }

  lemma {:induction false} TreeStaysLow(h: History)
    ensures forall n :: n in TreeOf(h) ==> 1 <= n <= |h|
  {
    if h != [] { TreeStaysLow(h[..|h|-1]); }
  }

  /** A branch of up to 999999 commits, each appended with its listing and page read, reads back as
      the lines of its commits, in order. */
  lemma {:induction false} TreeReadsFlat(h: History)
    requires |h| <= LAST_PAGE
    ensures ReadAll(TreeOf(h)) == Flat(h)
  {
    if h != [] {
      var init := h[..|h|-1];
      TreeReadsFlat(init);
      TreeStaysLow(init);
      SafeAppendExtends(TreeOf(init), h[|h|-1].lines);
    }
  }

  /** Pages 1 to k, and all but the last full. */
  ghost predicate Filled(tree: Tree, k: nat) {
    && (forall n :: n in tree <==> 1 <= n <= k)
    && forall n :: 1 <= n < k ==> |tree[n]| >= 1000
  }

  /** A healthy append goes to the last page until that holds a thousand lines, and then opens the next one;
      all other pages stay as they are. */
  lemma AppendGoesTo(tree: Tree, k: nat, lines: seq<Line>)
    requires Filled(tree, k) && k <= 999_999
    ensures Appended(tree, lines, true, true) ==
      if k == 0 then map[1 := lines]
      else if |tree[k]| >= 1000 then tree[k + 1 := lines]
      else tree[k := tree[k] + lines]
  {
    assert [] + lines == lines;
    if k > 0 {
      assert k in Listed(tree);
      assert Highest(Listed(tree)) == k;
    } else {
      assert tree.Keys == {} && Listed(tree) == {};
      assert tree[1 := lines] == map[1 := lines];
    }
  }

  /** So a branch built by healthy appends has its pages numbered from 1 without a gap, all but the last one
      full. */
  lemma {:induction false} PagesFill(h: History) returns (k: nat)
    requires |h| <= 999_999
    ensures k <= |h| && (h != [] ==> k > 0) && Filled(TreeOf(h), k)
  {
    if h == [] {
      k := 0;
    } else {
      var before := PagesFill(h[..|h|-1]);
      var tree := TreeOf(h[..|h|-1]);
      AppendGoesTo(tree, before, h[|h|-1].lines);
      k := if before == 0 || |tree[before]| >= 1000 then before + 1 else before;
    }
  }
}
