/** Finding the current page: `evaluate_current_page` looks at the pages one or two links away from
    the last known page first and at the rest only if none of those matches. */
module PageLocator {
  import opened Common

  /** A topology node; equality is field by field, as for the data class it stands for. */
  datatype TopoNode = TopoNode(
    nodeId: string, pageId: string, nodeType: string, nodeName: string, features: nat, popup: bool, extra: string)
  {
    function Key(): string { if pageId != "" then pageId else nodeId }

    predicate IsPage() { nodeType == "page_state" }

    function Label(): string { if nodeName != "" then nodeName else nodeId }
  }

  /** What a test of a page on the shared frame gives: the score of a match, or nothing, also when
      the test failed with an exception. */
  type PageTest = TopoNode -> Option<real>

  type Links = map<string, seq<string>>

  predicate NoDuplicates<T(==)>(s: seq<T>) {
    forall i, j :: 0 <= i < j < |s| ==> s[i] != s[j]
  }

  // ---------------------------------------------------------------- the order of candidates

  predicate NameBefore(a: string, b: string) {
    if a == "" then b != ""
    else b != "" && (a[0] < b[0] || (a[0] == b[0] && NameBefore(a[1..], b[1..])))
  }

  lemma {:induction false} NameBeforeTransitive(a: string, b: string, c: string)
    requires NameBefore(a, b) && NameBefore(b, c)
    ensures NameBefore(a, c)
  {
    if a != "" && a[0] == b[0] == c[0] { NameBeforeTransitive(a[1..], b[1..], c[1..]); }
  }

  /** Up to `i` the names are the same; there `a` ends first, or has the smaller character. */
  predicate SmallerAt(a: string, b: string, i: nat) {
    && i <= |a| && i < |b| && a[..i] == b[..i]
    && (i < |a| ==> a[i] < b[i])
  }

  /** The order of names is the order of words in a dictionary. */
  lemma {:induction false} NamesAreSorted(a: string, b: string)
    ensures NameBefore(a, b) <==> exists i: nat :: SmallerAt(a, b, i)
  {
    if a == "" {
      assert b != "" ==> SmallerAt(a, b, 0);
    } else if b != "" {
      if a[0] != b[0] {
        assert a[0] < b[0] ==> SmallerAt(a, b, 0);
        forall i: nat | SmallerAt(a, b, i) ensures i == 0 {
          SameFront(a, b, i);
        }
      } else {
        NamesAreSorted(a[1..], b[1..]);
        SmallerLater(a, b);
      }
    }
  }

  lemma SameFront(a: string, b: string, i: nat)
    requires i <= |a| && i <= |b| && a[..i] == b[..i]
    ensures i > 0 ==> a[0] == b[0]
  {
    if i > 0 { assert a[0] == a[..i][0] == b[..i][0]; }
  }

  lemma SmallerLater(a: string, b: string)
    requires a != "" && b != "" && a[0] == b[0]
    ensures (exists i: nat :: SmallerAt(a, b, i)) <==> exists i: nat :: SmallerAt(a[1..], b[1..], i)
  {
    if i: nat :| SmallerAt(a, b, i) {
      assert a[1..][..i - 1] == a[..i][1..] && b[1..][..i - 1] == b[..i][1..];
      assert SmallerAt(a[1..], b[1..], i - 1);
    }
    if i: nat :| SmallerAt(a[1..], b[1..], i) {
      assert a[..i + 1] == [a[0]] + a[1..][..i] && b[..i + 1] == [b[0]] + b[1..][..i];
      assert SmallerAt(a, b, i + 1);
    }
  }

  /** The name a page is listed under. */
  function Shown(n: TopoNode): string {
    if n.nodeName == "" then n.nodeId else n.nodeName
  }

  /** What the page chosen has over every other match of its tier: more features; or as many and a
      higher score; or both the same and a name that does not come later. */
  lemma ChosenPage(test: PageTest, tier: iset<TopoNode>, n: TopoNode)
    ensures BestOf(test, tier, n) <==>
      && n in tier && test(n).Some?
      && forall m :: m in tier && test(m).Some? ==>
           || m.features < n.features
           || (m.features == n.features &&
                (|| test(m).value < test(n).value
                 || (test(m).value == test(n).value && forall i: nat :: !SmallerAt(Shown(m), Shown(n), i))))
  {
    hide SmallerAt, NameBefore;
    forall m: TopoNode ensures NameBefore(m.Label(), n.Label()) <==> exists i: nat :: SmallerAt(Shown(m), Shown(n), i) {
      assert m.Label() == Shown(m) && n.Label() == Shown(n);
      NamesAreSorted(m.Label(), n.Label());
    }
  }

  /** More features first, then the higher score, then the smaller name. */
  predicate Better(test: PageTest, a: TopoNode, b: TopoNode)
    requires test(a).Some? && test(b).Some?
  {
    || a.features > b.features
    || (a.features == b.features &&
         (|| test(a).value > test(b).value
          || (test(a).value == test(b).value && NameBefore(a.Label(), b.Label()))))
  }

  lemma BetterTransitive(test: PageTest, a: TopoNode, b: TopoNode, c: TopoNode)
    requires test(a).Some? && test(b).Some? && test(c).Some?
    requires Better(test, a, b) && Better(test, b, c)
    ensures Better(test, a, c)
  {
    if NameBefore(a.Label(), b.Label()) && NameBefore(b.Label(), c.Label()) {
      NameBeforeTransitive(a.Label(), b.Label(), c.Label());
    }
  }

  lemma {:induction false} NamesCompare(a: string, b: string)
    ensures a == b || NameBefore(a, b) || NameBefore(b, a)
  {
    if a != "" && b != "" && a[0] == b[0] {
      NamesCompare(a[1..], b[1..]);
      assert a == [a[0]] + a[1..] && b == [b[0]] + b[1..];
    }
  }

  /** What beats `b` beats everything that does not beat `b`. */
  lemma BetterThanRest(test: PageTest, a: TopoNode, b: TopoNode, c: TopoNode)
    requires test(a).Some? && test(b).Some? && test(c).Some?
    requires Better(test, a, b) && !Better(test, c, b)
    ensures Better(test, a, c)
  {
    hide NameBefore;
    NamesCompare(b.Label(), c.Label());
    if NameBefore(a.Label(), b.Label()) && NameBefore(b.Label(), c.Label()) {
      NameBeforeTransitive(a.Label(), b.Label(), c.Label());
    }
  }

  /** A match of the tier that no other match of it beats. */
  ghost predicate BestOf(test: PageTest, tier: iset<TopoNode>, n: TopoNode) {
    && n in tier && test(n).Some?
    && forall m :: m in tier && test(m).Some? ==> !Better(test, m, n)
  }

  /** Of several matches that no other beats, the first. */
  ghost predicate FirstBest(test: PageTest, matches: seq<TopoNode>, i: nat)
    requires i < |matches| && forall n :: n in matches ==> test(n).Some?
  {
    && (forall j :: 0 <= j < |matches| ==> !Better(test, matches[j], matches[i]))
    && (forall j :: 0 <= j < i ==> Better(test, matches[i], matches[j]))
  }

  // ---------------------------------------------------------------- tiers

  function Targets(links: Links, key: string): seq<string> {
    if key in links then links[key] else []
  }

  function TargetsOf(links: Links, keys: set<string>): set<string> {
    set k, t | k in keys && t in Targets(links, k) :: t
  }

  /** The keys one or two links away. */
  function NearKeys(links: Links, current: string): set<string> {
    TargetsOf(links, {current}) + TargetsOf(links, TargetsOf(links, {current}))
  }

  /** The navigation pages at some of the keys. */
  ghost function PagesAt(nodeMap: map<string, TopoNode>, keys: set<string>): iset<TopoNode> {
    iset k | k in keys && k in nodeMap && nodeMap[k].IsPage() :: nodeMap[k]
  }

  ghost function NearTier(nodeMap: map<string, TopoNode>, links: Option<Links>, current: string): iset<TopoNode> {
    if current != "" && links.Some? then PagesAt(nodeMap, NearKeys(links.value, current)) else iset{}
  }

  ghost predicate SomeMatch(test: PageTest, tier: iset<TopoNode>) {
    exists n :: n in tier && test(n).Some?
  }

  ghost function All(pages: seq<TopoNode>): iset<TopoNode> {
    iset n | n in pages
  }

  /** The specification of the search: the best page of the near tier if one matches there, else
      the best of all pages, else "". */
  ghost predicate Locates(test: PageTest, near: iset<TopoNode>, pages: seq<TopoNode>, r: string) {
    if SomeMatch(test, near) then exists n :: BestOf(test, near, n) && r == n.pageId
    else if SomeMatch(test, All(pages)) then exists n :: BestOf(test, All(pages), n) && r == n.pageId
    else r == ""
  }

  // ---------------------------------------------------------------- index

  /** The nodes an index is built from: popup pages take no part in navigation. */
  function Navigable(nodes: seq<TopoNode>): seq<TopoNode> {
    if nodes == [] then []
    else Navigable(nodes[..|nodes| - 1]) + if nodes[|nodes| - 1].popup && nodes[|nodes| - 1].IsPage() then [] else [nodes[|nodes| - 1]]
  }

  function PagesOf(nodes: seq<TopoNode>): seq<TopoNode> {
    if nodes == [] then []
    else PagesOf(nodes[..|nodes| - 1]) + if nodes[|nodes| - 1].IsPage() then [nodes[|nodes| - 1]] else []
  }

  /** The last node with a key is the one it stands for. */
  ghost predicate LastByKey(nodes: seq<TopoNode>, nodeMap: map<string, TopoNode>) {
    && (forall i :: 0 <= i < |nodes| ==> nodes[i].Key() in nodeMap)
    && (forall k :: k in nodeMap ==> exists i :: 0 <= i < |nodes| && IsLast(nodes, i, k) && nodeMap[k] == nodes[i])
  }

  ghost predicate IsLast(nodes: seq<TopoNode>, i: nat, k: string)
    requires i < |nodes|
  {
    nodes[i].Key() == k && forall j :: i < j < |nodes| ==> nodes[j].Key() != k
  }

  lemma OneMoreKey(nodes: seq<TopoNode>, nodeMap: map<string, TopoNode>, n: TopoNode)
    requires LastByKey(nodes, nodeMap)
    ensures LastByKey(nodes + [n], nodeMap[n.Key() := n])
  {
    var all, now := nodes + [n], nodeMap[n.Key() := n];
    assert all[|nodes|] == n && IsLast(all, |nodes|, n.Key());
    forall k | k in now
      ensures exists i :: 0 <= i < |all| && IsLast(all, i, k) && now[k] == all[i]
    {
      if k != n.Key() {
        var i :| 0 <= i < |nodes| && IsLast(nodes, i, k) && nodeMap[k] == nodes[i];
        assert all[i] == nodes[i] && IsLast(all, i, k);
      }
    }
  }

  lemma {:induction false} PagesOfHolds(nodes: seq<TopoNode>, n: TopoNode)
    ensures n in PagesOf(nodes) <==> n in nodes && n.IsPage()
  {
    if nodes != [] { PagesOfHolds(nodes[..|nodes| - 1], n); }
  }

  /** Every page the index resolves is one of its pages. */
  lemma NearIsPages(nodes: seq<TopoNode>, nodeMap: map<string, TopoNode>, links: Option<Links>, current: string)
    requires LastByKey(nodes, nodeMap)
    ensures NearTier(nodeMap, links, current) <= All(PagesOf(nodes))
  {
    forall n | n in NearTier(nodeMap, links, current)
      ensures n in PagesOf(nodes)
    {
      var k :| k in nodeMap && nodeMap[k] == n && n.IsPage();
      var i :| 0 <= i < |nodes| && IsLast(nodes, i, k) && nodeMap[k] == nodes[i];
      assert nodes[i] == n;
      PagesOfHolds(nodes, n);
    }
  }

  // ---------------------------------------------------------------- what the search promises

  ghost predicate NoneMatches(test: PageTest, pages: seq<TopoNode>) {
    forall n :: n in pages ==> test(n).None?
  }

  /** Whatever the frame shows, the search finds nothing exactly when a full scan would. */
  ghost predicate AgreesWithFullScan(near: iset<TopoNode>, pages: seq<TopoNode>) {
    forall test: PageTest, r :: Locates(test, near, pages, r) ==> (r == "" <==> NoneMatches(test, pages))
  }

  lemma NamedPagesAreFound(test: PageTest, near: iset<TopoNode>, pages: seq<TopoNode>, r: string)
    requires near <= All(pages) && Locates(test, near, pages, r)
    requires forall n :: n in pages ==> n.pageId != ""
    ensures r == "" <==> NoneMatches(test, pages)
  {
  }

  /** Matching only a page without an id, the search answers as if nothing matched. */
  lemma NamelessPageIsNotFound(near: iset<TopoNode>, pages: seq<TopoNode>, page: TopoNode)
    requires near <= All(pages) && page in pages && page.pageId == ""
    ensures Locates(OnlyMatch(page), near, pages, "") && !NoneMatches(OnlyMatch(page), pages)
  {
    var test := OnlyMatch(page);
    assert page in All(pages) && test(page).Some?;
    NotBetterThanItself(test, page);
    assert BestOf(test, All(pages), page);
    if SomeMatch(test, near) { assert BestOf(test, near, page); }
  }

  /** The two agree on every frame exactly when every page has an id. */
  lemma AgreesIffNamed(near: iset<TopoNode>, pages: seq<TopoNode>)
    requires near <= All(pages)
    ensures AgreesWithFullScan(near, pages) <==> forall n :: n in pages ==> n.pageId != ""
  {
    hide Locates, NoneMatches;
    if forall n :: n in pages ==> n.pageId != "" {
      forall test: PageTest, r | Locates(test, near, pages, r)
        ensures r == "" <==> NoneMatches(test, pages)
      {
        NamedPagesAreFound(test, near, pages, r);
      }
    } else {
      var page :| page in pages && page.pageId == "";
      NamelessPageIsNotFound(near, pages, page);
    }
  }

  function OnlyMatch(page: TopoNode): PageTest {
    n => if n == page then Some(1.0) else None
  }

  /** Whatever the frame shows, the best near match is a best match of the whole map. */
  ghost predicate NearIsBest(near: iset<TopoNode>, pages: seq<TopoNode>) {
    forall test: PageTest, n :: BestOf(test, near, n) ==> BestOf(test, All(pages), n)
  }

  ghost predicate NearIsRicher(near: iset<TopoNode>, pages: seq<TopoNode>) {
    forall k, m :: k in near && m in pages && m !in near ==> m.features < k.features
  }

  /** A frame on which a near page scores lower than a page outside its tier. */
  function TwoMatches(near: TopoNode, far: TopoNode): PageTest {
    n => if n == near then Some(0.0) else if n == far then Some(1.0) else None
  }

  lemma RicherStaysBest(test: PageTest, near: iset<TopoNode>, pages: seq<TopoNode>, n: TopoNode)
    requires near <= All(pages) && NearIsRicher(near, pages) && BestOf(test, near, n)
    ensures BestOf(test, All(pages), n)
  {
    forall m | m in All(pages) && test(m).Some? ensures !Better(test, m, n) {
      if m !in near { assert m.features < n.features; }
    }
  }

  /** Looking near first never answers a worse page exactly when every page outside the near tier has
      fewer features than every page in it: equal counts already leave the decision to the scores. */
  lemma LayeredIsBestIff(near: iset<TopoNode>, pages: seq<TopoNode>)
    requires near <= All(pages)
    ensures NearIsBest(near, pages) <==> NearIsRicher(near, pages)
  {
    hide Better;
    if NearIsRicher(near, pages) {
      forall test: PageTest, n | BestOf(test, near, n) ensures BestOf(test, All(pages), n) {
        RicherStaysBest(test, near, pages, n);
      }
    } else {
      var k, m :| k in near && m in pages && m !in near && !(m.features < k.features);
      FarBeatsNear(near, pages, k, m);
    }
  }

  lemma FarBeatsNear(near: iset<TopoNode>, pages: seq<TopoNode>, k: TopoNode, m: TopoNode)
    requires k in near && m in pages && m !in near && m.features >= k.features
    ensures !NearIsBest(near, pages)
  {
    var test := TwoMatches(k, m);
    NotBetterThanItself(test, k);
    assert BestOf(test, near, k);
    assert m in All(pages) && Better(test, m, k);
    assert !BestOf(test, All(pages), k);
  }

  // ---------------------------------------------------------------- the search

  class Locator {
    const tasks: seq<seq<TopoNode>>
    const links: Option<Links>
    const test: PageTest
    var currentPage: Option<string>
    var index: Option<(map<string, TopoNode>, seq<TopoNode>)>
    ghost var tested: seq<TopoNode>

    ghost predicate Valid()
      reads this
    {
      index.Some? ==> IndexOf(Flat(tasks), index.value.0, index.value.1)
    }

    constructor (tasks: seq<seq<TopoNode>>, links: Option<Links>, test: PageTest, currentPage: Option<string>)
      ensures Valid() && tested == []
      ensures this.tasks == tasks && this.links == links && this.test == test && this.currentPage == currentPage
    {
      this.tasks, this.links, this.test, this.currentPage := tasks, links, test, currentPage;
      index, tested := None, [];
    }

    /** The index of the map, built once. */
    method BuildTopologyIndex() returns (nodeMap: map<string, TopoNode>, pages: seq<TopoNode>)
      requires Valid()
      modifies `index
      ensures Valid() && index == Some((nodeMap, pages))
    {
      if index.Some? { return index.value.0, index.value.1; }
      hide IndexOf, Flat;
      nodeMap, pages := map[], [];
      NothingIndexed();
      var t := 0;
      while t < |tasks|
        invariant 0 <= t <= |tasks|
        invariant IndexOf(Flat(tasks[..t]), nodeMap, pages)
      {
        FlatSnoc(tasks, t);
        nodeMap, pages := IndexTask(tasks[t], Flat(tasks[..t]), nodeMap, pages);
        t := t + 1;
      }
      assert tasks[..t] == tasks;
      index := Some((nodeMap, pages));
    }

    method IndexTask(task: seq<TopoNode>, ghost before: seq<TopoNode>, nodeMap0: map<string, TopoNode>, pages0: seq<TopoNode>)
      returns (nodeMap: map<string, TopoNode>, pages: seq<TopoNode>)
      requires IndexOf(before, nodeMap0, pages0)
      ensures IndexOf(before + task, nodeMap, pages)
    {
      hide IndexOf;
      nodeMap, pages := nodeMap0, pages0;
      var i := 0;
      assert before + task[..0] == before;
      while i < |task|
        invariant 0 <= i <= |task|
        invariant IndexOf(before + task[..i], nodeMap, pages)
      {
        var n := task[i];
        IndexStep(before + task[..i], nodeMap, pages, n);
        assert before + task[..i] + [n] == before + task[..i + 1];
        if !(n.popup && n.IsPage()) {
          nodeMap := nodeMap[n.Key() := n];
          if n.IsPage() {
            pages := pages + [n];
          }
        }
        i := i + 1;
      }
      assert task[..i] == task;
    }

    /** Tests one page on the shared frame; a match leaves its id as the current page. */
    method Evaluate(node: TopoNode) returns (matched: bool)
      modifies `currentPage, `tested
      ensures matched <==> test(node).Some?
      ensures tested == old(tested) + [node]
      ensures currentPage == if matched then Some(node.pageId) else old(currentPage)
    {
      tested := tested + [node];
      matched := test(node).Some?;
      if matched {
        currentPage := Some(node.pageId);
      }
    }

    /** Tests pages in order and keeps the matches. */
    method EvaluateAll(nodes: seq<TopoNode>, skip: seq<TopoNode>) returns (matches: seq<TopoNode>)
      modifies `currentPage, `tested
      ensures tested == old(tested) + Without(nodes, skip)
      ensures forall n :: n in matches <==> n in nodes && n !in skip && test(n).Some?
      ensures matches == [] ==> currentPage == old(currentPage)
    {
      matches := [];
      var i := 0;
      assert old(tested) + [] == old(tested);
      while i < |nodes|
        invariant 0 <= i <= |nodes|
        invariant tested == old(tested) + Without(nodes[..i], skip)
        invariant forall n :: n in matches <==> n in nodes[..i] && n !in skip && test(n).Some?
        invariant matches == [] ==> currentPage == old(currentPage)
      {
        assert nodes[..i + 1][..i] == nodes[..i] && nodes[..i + 1] == nodes[..i] + [nodes[i]];
        if nodes[i] !in skip {
          var hit := Evaluate(nodes[i]);
          if hit {
            matches := matches + [nodes[i]];
          }
        }
        i := i + 1;
      }
      assert nodes[..i] == nodes;
    }

    /** The first best of the matches becomes the current page. */
    method Choose(matches: seq<TopoNode>) returns (r: string)
      requires forall n :: n in matches ==> test(n).Some?
      modifies `currentPage
      ensures matches == [] ==> r == "" && currentPage == old(currentPage)
      ensures matches != [] ==> currentPage == Some(r) && exists n :: BestOf(test, All(matches), n) && r == n.pageId
      ensures matches != [] ==> exists i :: 0 <= i < |matches| && FirstBest(test, matches, i) && r == matches[i].pageId
    {
      if matches == [] { return ""; }
      var best, i := 0, 1;
      NotBetterThanItself(test, matches[0]);
      while i < |matches|
        invariant 0 <= best < i <= |matches|
        invariant forall j :: 0 <= j < i ==> !Better(test, matches[j], matches[best])
        invariant forall j :: 0 <= j < best ==> Better(test, matches[best], matches[j])
      {
        if Better(test, matches[i], matches[best]) {
          forall j | 0 <= j < i
            ensures !Better(test, matches[j], matches[i]) && Better(test, matches[i], matches[j])
          {
            BetterThanRest(test, matches[i], matches[best], matches[j]);
            if Better(test, matches[j], matches[i]) { BetterTransitive(test, matches[j], matches[i], matches[best]); }
          }
          NotBetterThanItself(test, matches[i]);
          best := i;
        }
        i := i + 1;
      }
      assert BestOf(test, All(matches), matches[best]) && FirstBest(test, matches, best);
      currentPage := Some(matches[best].pageId);
      r := matches[best].pageId;
    }

    /** The keys linked from the frontier that were not seen before. */
    method NextFrontier(graph: Links, frontier: set<string>, seen0: set<string>) returns (nxt: set<string>, seen: set<string>)
      ensures seen == seen0 + TargetsOf(graph, frontier)
      ensures nxt == TargetsOf(graph, frontier) - seen0
    {
      hide TargetsOf, Elements;
      nxt, seen := {}, seen0;
      assert frontier - frontier == {} && seen0 + {} == seen0;
      NoSource(graph);
      var todo := frontier;
      while todo != {}
        invariant todo <= frontier
        invariant nxt == TargetsOf(graph, frontier - todo) - seen0
        invariant seen == seen0 + TargetsOf(graph, frontier - todo)
        decreases |todo|
      {
        var key :| key in todo;
        OneMoreSource(graph, frontier - todo, key);
        assert frontier - (todo - {key}) == frontier - todo + {key};
        Frontiers(seen0, TargetsOf(graph, frontier - todo), Elements(Targets(graph, key)));
        nxt, seen := AddTargets(Targets(graph, key), nxt, seen);
        todo := todo - {key};
      }
      assert frontier - todo == frontier;
    }

    method AddTargets(targets: seq<string>, nxt0: set<string>, seen0: set<string>) returns (nxt: set<string>, seen: set<string>)
      ensures nxt == nxt0 + (Elements(targets) - seen0)
      ensures seen == seen0 + Elements(targets)
    {
      nxt, seen := nxt0, seen0;
      var i := 0;
      while i < |targets|
        invariant 0 <= i <= |targets|
        invariant nxt == nxt0 + (Elements(targets[..i]) - seen0)
        invariant seen == seen0 + Elements(targets[..i])
      {
        var t := targets[i];
        assert targets[..i + 1] == targets[..i] + [t];
        assert Elements(targets[..i + 1]) == Elements(targets[..i]) + {t};
        if t !in seen {
          seen, nxt := seen + {t}, nxt + {t};
        }
        i := i + 1;
      }
      assert targets[..i] == targets;
    }

    /** Adds the navigation pages at the given keys, each once, in any order. */
    method AppendPages(nodeMap: map<string, TopoNode>, keys: set<string>,
        ordered0: seq<TopoNode>) returns (ordered: seq<TopoNode>)
      requires NoDuplicates(ordered0)
      ensures NoDuplicates(ordered)
      ensures All(ordered) == All(ordered0) + PagesAt(nodeMap, keys)
    {
      ordered := ordered0;
      var todo := keys;
      while todo != {}
        invariant todo <= keys && NoDuplicates(ordered)
        invariant All(ordered) == All(ordered0) + PagesAt(nodeMap, keys - todo)
        decreases |todo|
      {
        var key :| key in todo;
        ghost var before := ordered;
        if key in nodeMap && nodeMap[key].IsPage() && nodeMap[key] !in ordered {
          ordered := ordered + [nodeMap[key]];
        }
        OneMorePage(nodeMap, keys - todo, key, before, ordered, All(ordered0));
        assert keys - (todo - {key}) == keys - todo + {key};
        todo := todo - {key};
      }
      assert keys - todo == keys;
    }

    /** The pages one link away, then those two links away. */
    method NearPages(nodeMap: map<string, TopoNode>, graph: Links, current: string) returns (ordered: seq<TopoNode>)
      ensures NoDuplicates(ordered)
      ensures All(ordered) == PagesAt(nodeMap, NearKeys(graph, current))
    {
      ordered := [];
      var frontier, seen := {current}, {};
      ghost var reached: set<string> := {};
      var hop := 0;
      while hop < 2
        invariant 0 <= hop <= 2 && NoDuplicates(ordered)
        invariant All(ordered) == PagesAt(nodeMap, seen)
        invariant hop == 0 ==> frontier == {current} && seen == {}
        invariant hop == 1 ==> frontier == seen == TargetsOf(graph, {current})
        invariant hop == 2 ==> seen == NearKeys(graph, current)
      {
        ghost var before, from := seen, frontier;
        frontier, seen := NextFrontier(graph, frontier, seen);
        if frontier == {} {
          NothingFurther(graph, current, hop, before, from);
          assert seen == before;
          break;
        }
        ordered := AppendPages(nodeMap, frontier, ordered);
        PagesAtUnion(nodeMap, before, frontier);
        assert before + frontier == seen;
        hop := hop + 1;
      }
    }

    /** The current page as the screen shows it, or "". */
    method EvaluateCurrentPage() returns (r: string)
      requires Valid()
      modifies this
      ensures Valid() && index.Some? && old(tested) <= tested
      ensures var (nodeMap, pages) := index.value;
        var near := NearTier(nodeMap, links, if old(currentPage).Some? then old(currentPage).value else "");
        && near <= All(pages)
        && Locates(test, near, pages, r)
        && All(tested[|old(tested)|..]) == (if SomeMatch(test, near) then near else All(pages))
        && (NoDuplicates(pages) ==> NoDuplicates(tested[|old(tested)|..]))
        && currentPage == if SomeMatch(test, All(pages)) then Some(r) else old(currentPage)
    {
      hide IndexOf, NearTier, Locates, SomeMatch, All, NoDuplicates;
      var current := if currentPage.Some? then currentPage.value else "";
      var nodeMap, pages := BuildTopologyIndex();
      ghost var near := NearTier(nodeMap, links, current);
      NearWithinPages(tasks, nodeMap, pages, links, current);
      if pages == [] {
        NothingToLocate(test, near, pages);
        assert tested[|old(tested)|..] == [];
        return "";
      }
      var ordered := [];
      NoneTwice();
      if current != "" && links.Some? {
        ordered := NearPages(nodeMap, links.value, current);
      }
      NearTierIs(nodeMap, links, current);
      r := SearchTiers(ordered, pages, near);
    }

    /** The near tier first; the other pages only if nothing matches there. */
    method SearchTiers(ordered: seq<TopoNode>, pages: seq<TopoNode>, ghost near: iset<TopoNode>) returns (r: string)
      requires NoDuplicates(ordered) && All(ordered) == near && near <= All(pages)
      modifies `currentPage, `tested
      ensures old(tested) <= tested
      ensures Locates(test, near, pages, r)
      ensures All(tested[|old(tested)|..]) == if SomeMatch(test, near) then near else All(pages)
      ensures NoDuplicates(pages) ==> NoDuplicates(tested[|old(tested)|..])
      ensures currentPage == if SomeMatch(test, All(pages)) then Some(r) else old(currentPage)
    {
      hide Locates, BestOf, NoDuplicates, Better;
      ghost var tested0 := tested;
      WithoutNothing(ordered);
      var matches := EvaluateAll(ordered, []);
      assert tested[|tested0|..] == ordered;
      if matches != [] {
        r := Choose(matches);
        NearBest(test, near, pages, matches, r);
        return;
      }
      assert !SomeMatch(test, near);
      var fallback := EvaluateAll(pages, ordered);
      assert tested[|tested0|..] == ordered + Without(pages, ordered);
      TestedTwice(ordered, pages);
      r := Choose(fallback);
      FarBest(test, near, pages, fallback, r);
    }
  }

  lemma NoneTwice()
    ensures NoDuplicates<TopoNode>([]) && All([]) == iset{}
  {
  }

  function Flat(tasks: seq<seq<TopoNode>>): seq<TopoNode> {
    if tasks == [] then [] else Flat(tasks[..|tasks| - 1]) + tasks[|tasks| - 1]
  }

  /** The index of a list of nodes: pages in order, and the last node for each key. */
  ghost predicate IndexOf(nodes: seq<TopoNode>, nodeMap: map<string, TopoNode>, pages: seq<TopoNode>) {
    LastByKey(Navigable(nodes), nodeMap) && pages == PagesOf(Navigable(nodes))
  }

  lemma NothingIndexed()
    ensures Flat([]) == [] && IndexOf([], map[], [])
  {
  }

  lemma {:induction false} FlatHolds(tasks: seq<seq<TopoNode>>, n: TopoNode)
    ensures n in Flat(tasks) <==> exists t :: 0 <= t < |tasks| && n in tasks[t]
  {
    if tasks != [] {
      var k := |tasks| - 1;
      FlatHolds(tasks[..k], n);
      assert forall t :: 0 <= t < k ==> tasks[..k][t] == tasks[t];
      assert n in Flat(tasks) <==> n in Flat(tasks[..k]) || n in tasks[k];
    }
  }

  lemma {:induction false} NavigableIff(nodes: seq<TopoNode>, n: TopoNode)
    ensures n in Navigable(nodes) <==> n in nodes && !(n.popup && n.nodeType == "page_state")
  {
    if nodes != [] { NavigableIff(nodes[..|nodes| - 1], n); }
  }

  /** The index lists exactly the pages of the map that are no popups. */
  lemma IndexedPagesIff(tasks: seq<seq<TopoNode>>, nodeMap: map<string, TopoNode>, pages: seq<TopoNode>, n: TopoNode)
    requires IndexOf(Flat(tasks), nodeMap, pages)
    ensures n in pages <==> (exists t :: 0 <= t < |tasks| && n in tasks[t]) && n.nodeType == "page_state" && !n.popup
  {
    hide Flat, Navigable;
    PagesOfHolds(Navigable(Flat(tasks)), n);
    NavigableIff(Flat(tasks), n);
    FlatHolds(tasks, n);
  }

  /** And it knows each node that is no popup page by its page id, or by its node id if it has none: of
      several with that id the last one. */
  lemma IndexedKeyIff(nodes: seq<TopoNode>, nodeMap: map<string, TopoNode>, pages: seq<TopoNode>, k: string, m: TopoNode)
    requires IndexOf(nodes, nodeMap, pages)
    ensures k in nodeMap && nodeMap[k] == m <==> exists i :: 0 <= i < |nodes| && LastNamed(nodes, i, k) && nodes[i] == m
  {
    hide Navigable, LastByKey;
    KeyStands(Navigable(nodes), nodeMap, k, m);
    StandsAlike(nodes, k, m);
  }

  predicate Kept(n: TopoNode) {
    !(n.popup && n.nodeType == "page_state")
  }

  predicate LastNamed(nodes: seq<TopoNode>, i: nat, k: string)
    requires i < |nodes|
  {
    Kept(nodes[i]) && Named(nodes[i], k) && forall j :: i < j < |nodes| && Kept(nodes[j]) ==> !Named(nodes[j], k)
  }

  ghost predicate StandsAt(kept: seq<TopoNode>, k: string, n: TopoNode) {
    exists j :: 0 <= j < |kept| && IsLast(kept, j, k) && kept[j] == n
  }

  ghost predicate StandsIn(nodes: seq<TopoNode>, k: string, n: TopoNode) {
    exists i :: 0 <= i < |nodes| && LastNamed(nodes, i, k) && nodes[i] == n
  }

  /** One more node: it stands for its key, and the others for theirs as before. */
  lemma StandsSnoc(nodes: seq<TopoNode>, n: TopoNode, k: string, m: TopoNode)
    ensures StandsAt(nodes + [n], k, m) <==> if Named(n, k) then m == n else StandsAt(nodes, k, m)
    ensures StandsIn(nodes + [n], k, m) <==> if Kept(n) && Named(n, k) then m == n else StandsIn(nodes, k, m)
  {
    var all := nodes + [n];
    assert all[|nodes|] == n;
    assert Named(n, k) <==> IsLast(all, |nodes|, k);
    assert Kept(n) && Named(n, k) <==> LastNamed(all, |nodes|, k);
    forall i | 0 <= i < |nodes|
      ensures all[i] == nodes[i]
      ensures IsLast(all, i, k) <==> IsLast(nodes, i, k) && !Named(n, k)
      ensures LastNamed(all, i, k) <==> LastNamed(nodes, i, k) && !(Kept(n) && Named(n, k))
    {
      assert forall j :: i < j < |nodes| ==> all[j] == nodes[j];
    }
  }

  lemma {:induction false} StandsAlike(nodes: seq<TopoNode>, k: string, m: TopoNode)
    ensures StandsAt(Navigable(nodes), k, m) <==> StandsIn(nodes, k, m)
  {
    hide StandsAt, StandsIn, Named;
    if nodes == [] {
      NothingStands(k, m);
    } else {
      var front, n := nodes[..|nodes| - 1], nodes[|nodes| - 1];
      assert front + [n] == nodes;
      StandsAlike(front, k, m);
      StandsSnoc(front, n, k, m);
      StandsSnoc(Navigable(front), n, k, m);
      assert Navigable(front) + [] == Navigable(front);
    }
  }

  lemma NothingStands(k: string, m: TopoNode)
    ensures !StandsAt([], k, m) && !StandsIn([], k, m)
  {
  }

  lemma KeyStands(kept: seq<TopoNode>, nodeMap: map<string, TopoNode>, k: string, m: TopoNode)
    requires LastByKey(kept, nodeMap)
    ensures k in nodeMap && nodeMap[k] == m <==> StandsAt(kept, k, m)
  {
    hide IsLast;
    if j: nat :| j < |kept| && IsLast(kept, j, k) && kept[j] == m {
      LastIsUnique(kept, j, j, k);
      assert kept[j].Key() in nodeMap;
      var i: nat :| i < |kept| && IsLast(kept, i, k) && nodeMap[k] == kept[i];
      LastIsUnique(kept, i, j, k);
    }
  }

  lemma LastIsUnique(nodes: seq<TopoNode>, i: nat, j: nat, k: string)
    requires i < |nodes| && j < |nodes| && IsLast(nodes, i, k) && IsLast(nodes, j, k)
    ensures i == j && nodes[i].Key() == k
  {
  }

  predicate Named(n: TopoNode, k: string) {
    k == if n.pageId == "" then n.nodeId else n.pageId
  }

  /** The near tier: the pages linked from the current one, and those linked from what it links to. */
  lemma NearIff(nodeMap: map<string, TopoNode>, links: Option<Links>, current: string, n: TopoNode)
    ensures n in NearTier(nodeMap, links, current) <==>
      && current != "" && links.Some? && n.nodeType == "page_state"
      && exists k :: k in nodeMap && nodeMap[k] == n && (Linked(links.value, current, k) || exists m :: Linked(links.value, current, m) && Linked(links.value, m, k))
  {
    if links.Some? {
      forall k ensures k in NearKeys(links.value, current) <==>
        (Linked(links.value, current, k) || exists m :: Linked(links.value, current, m) && Linked(links.value, m, k))
      {
        NearKeyIff(links.value, current, k);
      }
    }
  }

  lemma NearKeyIff(links: Links, current: string, k: string)
    ensures k in NearKeys(links, current) <==>
      (Linked(links, current, k) || exists m :: Linked(links, current, m) && Linked(links, m, k))
  {
    hide TargetsOf;
    forall a, keys ensures a in TargetsOf(links, keys) <==> exists m :: m in keys && Linked(links, m, a) {
      TargetsIff(links, keys, a);
    }
  }

  lemma TargetsIff(links: Links, keys: set<string>, a: string)
    ensures a in TargetsOf(links, keys) <==> exists m :: m in keys && Linked(links, m, a)
  {
    if m :| m in keys && Linked(links, m, a) { assert a in Targets(links, m); }
  }

  predicate Linked(links: Links, a: string, b: string) {
    a in links && b in links[a]
  }

  lemma FlatSnoc(tasks: seq<seq<TopoNode>>, t: nat)
    requires t < |tasks|
    ensures Flat(tasks[..t + 1]) == Flat(tasks[..t]) + tasks[t]
  {
    assert tasks[..t + 1][..t] == tasks[..t];
  }

  lemma IndexStep(nodes: seq<TopoNode>, nodeMap: map<string, TopoNode>, pages: seq<TopoNode>, n: TopoNode)
    requires IndexOf(nodes, nodeMap, pages)
    ensures if n.popup && n.IsPage() then IndexOf(nodes + [n], nodeMap, pages)
      else IndexOf(nodes + [n], nodeMap[n.Key() := n], if n.IsPage() then pages + [n] else pages)
  {
    hide LastByKey;
    assert (nodes + [n])[..|nodes|] == nodes;
    var kept := Navigable(nodes);
    if n.popup && n.IsPage() {
      assert kept + [] == kept;
    } else {
      OneMoreKey(kept, nodeMap, n);
      assert (kept + [n])[..|kept|] == kept;
      if !n.IsPage() { assert pages + [] == pages; }
    }
  }

  function Without(nodes: seq<TopoNode>, skip: seq<TopoNode>): seq<TopoNode> {
    if nodes == [] then []
    else Without(nodes[..|nodes| - 1], skip) + if nodes[|nodes| - 1] in skip then [] else [nodes[|nodes| - 1]]
  }

  lemma {:induction false} NameNotBeforeItself(a: string)
    ensures !NameBefore(a, a)
  {
    if a != "" { NameNotBeforeItself(a[1..]); }
  }

  lemma NotBetterThanItself(test: PageTest, n: TopoNode)
    requires test(n).Some?
    ensures !Better(test, n, n)
  {
    NameNotBeforeItself(n.Label());
  }

  lemma NoSource(graph: Links)
    ensures TargetsOf(graph, {}) == {}
  {
  }

  lemma OneMoreSource(graph: Links, keys: set<string>, key: string)
    ensures TargetsOf(graph, keys + {key}) == TargetsOf(graph, keys) + Elements(Targets(graph, key))
  {
  }

  /** A hop that reaches no new key has found them all. */
  lemma NothingFurther(graph: Links, current: string, hop: nat, before: set<string>, frontier: set<string>)
    requires TargetsOf(graph, frontier) - before == {}
    requires if hop == 0 then before == {} && frontier == {current} else before == frontier == TargetsOf(graph, {current})
    ensures before == NearKeys(graph, current)
  {
    assert TargetsOf(graph, {}) == {};
    assert forall t :: t in TargetsOf(graph, frontier) && t !in before ==> t in TargetsOf(graph, frontier) - before;
  }

  lemma Frontiers(seen0: set<string>, t: set<string>, e: set<string>)
    ensures t - seen0 + (e - (seen0 + t)) == t + e - seen0
    ensures seen0 + t + e == seen0 + (t + e)
  {
  }

  lemma OneMorePage(nodeMap: map<string, TopoNode>, keys: set<string>, key: string, before: seq<TopoNode>, after: seq<TopoNode>,
      base: iset<TopoNode>)
    requires All(before) == base + PagesAt(nodeMap, keys)
    requires after == if key in nodeMap && nodeMap[key].IsPage() && nodeMap[key] !in before then before + [nodeMap[key]] else before
    ensures All(after) == base + PagesAt(nodeMap, keys + {key})
  {
    PagesAtUnion(nodeMap, keys, {key});
    var at := PagesAt(nodeMap, {key});
    assert at == if key in nodeMap && nodeMap[key].IsPage() then iset{nodeMap[key]} else iset{};
    forall n
      ensures n in after <==> n in base + PagesAt(nodeMap, keys) + at
    {
      assert n in before <==> n in All(before);
    }
  }

  lemma PagesAtUnion(nodeMap: map<string, TopoNode>, a: set<string>, b: set<string>)
    ensures PagesAt(nodeMap, a + b) == PagesAt(nodeMap, a) + PagesAt(nodeMap, b)
  {
  }

  lemma NearWithinPages(tasks: seq<seq<TopoNode>>, nodeMap: map<string, TopoNode>, pages: seq<TopoNode>, links: Option<Links>,
      current: string)
    requires IndexOf(Flat(tasks), nodeMap, pages)
    ensures NearTier(nodeMap, links, current) <= All(pages)
  {
    NearIsPages(Navigable(Flat(tasks)), nodeMap, links, current);
  }

  lemma NearTierIs(nodeMap: map<string, TopoNode>, links: Option<Links>, current: string)
    ensures NearTier(nodeMap, links, current) ==
      if current != "" && links.Some? then PagesAt(nodeMap, NearKeys(links.value, current)) else iset{}
  {
  }

  lemma NothingToLocate(test: PageTest, near: iset<TopoNode>, pages: seq<TopoNode>)
    requires near <= All(pages) && pages == []
    ensures Locates(test, near, pages, "") && near == All(pages) == iset{} == All([]) && !SomeMatch(test, iset{})
    ensures NoDuplicates<TopoNode>([])
  {
  }

  lemma {:induction false} WithoutNothing(nodes: seq<TopoNode>)
    ensures Without(nodes, []) == nodes
  {
    if nodes != [] { WithoutNothing(nodes[..|nodes| - 1]); }
  }

  lemma {:induction false} WithoutHolds(nodes: seq<TopoNode>, skip: seq<TopoNode>, n: TopoNode)
    ensures n in Without(nodes, skip) <==> n in nodes && n !in skip
  {
    if nodes != [] { WithoutHolds(nodes[..|nodes| - 1], skip, n); }
  }

  lemma {:induction false} WithoutDistinct(nodes: seq<TopoNode>, skip: seq<TopoNode>)
    requires NoDuplicates(nodes)
    ensures NoDuplicates(Without(nodes, skip))
  {
    if nodes != [] {
      var n := |nodes| - 1;
      WithoutDistinct(nodes[..n], skip);
      WithoutHolds(nodes[..n], skip, nodes[n]);
      assert forall i :: 0 <= i < n ==> nodes[..n][i] == nodes[i];
    }
  }

  lemma TestedTwice(ordered: seq<TopoNode>, pages: seq<TopoNode>)
    requires NoDuplicates(ordered) && All(ordered) <= All(pages)
    ensures All(ordered + Without(pages, ordered)) == All(pages)
    ensures NoDuplicates(pages) ==> NoDuplicates(ordered + Without(pages, ordered))
  {
    var rest := Without(pages, ordered);
    forall n
      ensures n in ordered + rest <==> n in pages
      ensures n in rest ==> n !in ordered
    {
      WithoutHolds(pages, ordered, n);
      assert n in ordered ==> n in All(ordered);
    }
    if NoDuplicates(pages) {
      WithoutDistinct(pages, ordered);
      JoinDistinct(ordered, rest);
    }
  }

  lemma JoinDistinct(a: seq<TopoNode>, b: seq<TopoNode>)
    requires NoDuplicates(a) && NoDuplicates(b) && forall n :: n in b ==> n !in a
    ensures NoDuplicates(a + b)
  {
    assert forall i :: |a| <= i < |a + b| ==> (a + b)[i] in b;
  }

  lemma NearBest(test: PageTest, near: iset<TopoNode>, pages: seq<TopoNode>, matches: seq<TopoNode>, r: string)
    requires near <= All(pages) && matches != []
    requires forall n :: n in matches <==> n in near && test(n).Some?
    requires exists n :: BestOf(test, All(matches), n) && r == n.pageId
    ensures SomeMatch(test, near) && SomeMatch(test, All(pages)) && Locates(test, near, pages, r)
  {
  }

  lemma FarBest(test: PageTest, near: iset<TopoNode>, pages: seq<TopoNode>, matches: seq<TopoNode>, r: string)
    requires !SomeMatch(test, near)
    requires forall n :: n in matches <==> n in pages && n !in near && test(n).Some?
    requires matches != [] ==> exists n :: BestOf(test, All(matches), n) && r == n.pageId
    requires matches == [] ==> r == ""
    ensures SomeMatch(test, All(pages)) <==> matches != []
    ensures Locates(test, near, pages, r)
  {
  }
}
