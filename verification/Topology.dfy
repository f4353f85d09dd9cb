/** The page map document: its validator, how it is loaded, and what a validated map gives the search
    for the current page. */
module Topology {
  import opened Common
  import opened Runtime
  import opened Schema
  import opened Defects
  import PageLocator

  /** `obsolete`: one of the fields is present that page maps no longer have. */
  datatype TopologyDoc = TopologyDoc(graph: GraphDoc, versionOk: bool, obsolete: bool)

  predicate IsPage(n: NodeDoc) {
    n.node.nodeType == "page_state"
  }

  function PageIds(nodes: seq<NodeDoc>): set<string> {
    set i | 0 <= i < |nodes| && IsPage(nodes[i]) :: nodes[i].node.pageId
  }

  predicate DistinctPages(nodes: seq<NodeDoc>) {
    forall i, j :: 0 <= i < j < |nodes| && IsPage(nodes[i]) && IsPage(nodes[j]) ==> nodes[i].node.pageId != nodes[j].node.pageId
  }

  predicate ValidTopology(d: TopologyDoc) {
    d.versionOk && !d.obsolete && ValidGraph(d.graph, false) && DistinctPages(d.graph.nodes)
  }

  /** `validate_topology` */
  method ValidateTopology(d: TopologyDoc) returns (error: Option<FormatError>)
    ensures error.None? <==> ValidTopology(d)
  {
    hide ValidGraph;
    if !d.versionOk { return Some(BadVersion); }
    if d.obsolete { return Some(ObsoleteField); }
    error := ValidateGraph(d.graph, false);
    if error.Some? { return; }
    var nodes := d.graph.nodes;
    var pageIds: set<string> := {};
    for i := 0 to |nodes|
      invariant DistinctPages(nodes[..i]) && pageIds == PageIds(nodes[..i])
    {
      var n := nodes[i];
      assert nodes[..i + 1] == nodes[..i] + [n];
      if !IsPage(n) {
        assert PageIds(nodes[..i + 1]) == PageIds(nodes[..i]);
        continue;
      }
      if n.node.pageId in pageIds {
        PageSeenBefore(nodes, i);
        return Some(DuplicatePage);
      }
      PageNotSeen(nodes, i);
      pageIds := pageIds + {n.node.pageId};
    }
    assert nodes[..|nodes|] == nodes;
  }

  lemma PageSeenBefore(nodes: seq<NodeDoc>, i: nat)
    requires i < |nodes| && IsPage(nodes[i]) && nodes[i].node.pageId in PageIds(nodes[..i])
    ensures !DistinctPages(nodes)
  {
    var j :| 0 <= j < i && IsPage(nodes[..i][j]) && nodes[..i][j].node.pageId == nodes[i].node.pageId;
    assert nodes[..i][j] == nodes[j];
  }

  lemma PageNotSeen(nodes: seq<NodeDoc>, i: nat)
    requires i < |nodes| && IsPage(nodes[i]) && nodes[i].node.pageId !in PageIds(nodes[..i]) && DistinctPages(nodes[..i])
    ensures DistinctPages(nodes[..i + 1]) && PageIds(nodes[..i + 1]) == PageIds(nodes[..i]) + {nodes[i].node.pageId}
  {
    var before, now := nodes[..i], nodes[..i + 1];
    assert forall j :: 0 <= j < i ==> now[j] == before[j] && now[j] == nodes[j];
    assert now[i] == nodes[i];
    forall j | 0 <= j < i && IsPage(before[j]) ensures before[j].node.pageId in PageIds(before) {
    }
    forall id | id in PageIds(before) ensures id in PageIds(now) {
      var j :| 0 <= j < |before| && IsPage(before[j]) && before[j].node.pageId == id;
      assert IsPage(now[j]) && now[j].node.pageId == id;
    }
    assert nodes[i].node.pageId in PageIds(now);
  }

  // ---------------------------------------------------------------- loading

  /** The nodes of the map, with what their tests read: how many features, and anything else. */
  function MapNode(n: Node, described: Node -> (nat, string)): PageLocator.TopoNode {
    PageLocator.TopoNode(n.nodeId, n.pageId, n.nodeType, n.nodeName, described(n).0, n.isRandomPopup, described(n).1)
  }

  /** Nodes without an id are dropped. */
  function MapNodes(nodes: seq<NodeDoc>, described: Node -> (nat, string)): seq<PageLocator.TopoNode> {
    if nodes == [] then []
    else
      var last := nodes[|nodes| - 1].node;
      MapNodes(nodes[..|nodes| - 1], described) + (if last.nodeId == "" then [] else [MapNode(last, described)])
  }

  /** `TopologyMap.from_dict`: one task that holds every node, or none. */
  function MapTasks(d: TopologyDoc, described: Node -> (nat, string)): seq<seq<PageLocator.TopoNode>> {
    var nodes := MapNodes(d.graph.nodes, described);
    if nodes == [] then [] else [nodes]
  }

  lemma {:induction false} MapNodesHolds(nodes: seq<NodeDoc>, described: Node -> (nat, string), n: PageLocator.TopoNode)
    requires n in MapNodes(nodes, described)
    ensures exists i :: 0 <= i < |nodes| && n == MapNode(nodes[i].node, described)
  {
    if nodes != [] {
      var k := |nodes| - 1;
      if n in MapNodes(nodes[..k], described) {
        MapNodesHolds(nodes[..k], described, n);
        var i :| 0 <= i < k && n == MapNode(nodes[..k][i].node, described);
        assert nodes[i] == nodes[..k][i];
      } else {
        assert n == MapNode(nodes[k].node, described);
      }
    }
  }

  /** The loaded map holds every node that has an id, and nothing else: its id, name, type and page, whether
      it is a popup, and what its tests read. */
  lemma {:induction false} MapLoads(nodes: seq<NodeDoc>, described: Node -> (nat, string), n: PageLocator.TopoNode)
    ensures n in MapNodes(nodes, described) <==> exists i :: 0 <= i < |nodes| && nodes[i].node.nodeId != "" && Describes(nodes[i].node, described, n)
  {
    if nodes != [] {
      var k := |nodes| - 1;
      hide MapNode, Describes, MapNodes;
      MapLoads(nodes[..k], described, n);
      MapSnoc(nodes, described, n);
      MapDescribes(nodes[k].node, described, n);
      forall i | 0 <= i < k ensures nodes[..k][i] == nodes[i] {
      }
    }
  }

  lemma MapSnoc(nodes: seq<NodeDoc>, described: Node -> (nat, string), n: PageLocator.TopoNode)
    requires nodes != []
    ensures var k := |nodes| - 1;
      n in MapNodes(nodes, described) <==> n in MapNodes(nodes[..k], described) || (nodes[k].node.nodeId != "" && n == MapNode(nodes[k].node, described))
  {
    hide MapNode;
  }

  lemma MapDescribes(doc: Node, described: Node -> (nat, string), n: PageLocator.TopoNode)
    ensures n == MapNode(doc, described) <==> Describes(doc, described, n)
  {
  }

  predicate Describes(doc: Node, described: Node -> (nat, string), n: PageLocator.TopoNode) {
    && n.nodeId == doc.nodeId && n.pageId == doc.pageId && n.nodeType == doc.nodeType && n.nodeName == doc.nodeName
    && n.popup == doc.isRandomPopup && n.features == described(doc).0 && n.extra == described(doc).1
  }

  /** A map is accepted exactly if its version is known, it has no obsolete field and its graph no defect, and no
      two of its pages have the same page id. */
  lemma MapRefusedIff(d: TopologyDoc)
    ensures ValidTopology(d) <==>
      && d.versionOk && !d.obsolete && !GraphDefect(d.graph)
      && forall i, j :: 0 <= i < j < |d.graph.nodes| && d.graph.nodes[i].node.nodeType == "page_state" && d.graph.nodes[j].node.nodeType == "page_state" ==>
           d.graph.nodes[i].node.pageId != d.graph.nodes[j].node.pageId
  {
    hide ValidGraph, GraphDefect;
    GraphDefectIff(d.graph, false);
  }

  lemma {:induction false} NavigableHolds(nodes: seq<PageLocator.TopoNode>, n: PageLocator.TopoNode)
    requires n in PageLocator.Navigable(nodes)
    ensures n in nodes
  {
    if n !in PageLocator.Navigable(nodes[..|nodes| - 1]) {
      assert n == nodes[|nodes| - 1];
    } else {
      NavigableHolds(nodes[..|nodes| - 1], n);
    }
  }

  /** The pages a map's index lists. */
  function IndexedPages(nodes: seq<PageLocator.TopoNode>): seq<PageLocator.TopoNode> {
    PageLocator.PagesOf(PageLocator.Navigable(nodes))
  }

  lemma PageFromDoc(nodes: seq<NodeDoc>, described: Node -> (nat, string), n: PageLocator.TopoNode) returns (i: nat)
    requires n in IndexedPages(MapNodes(nodes, described))
    ensures i < |nodes| && IsPage(nodes[i]) && n.pageId == nodes[i].node.pageId
  {
    var all := MapNodes(nodes, described);
    PageLocator.PagesOfHolds(PageLocator.Navigable(all), n);
    NavigableHolds(all, n);
    MapNodesHolds(nodes, described, n);
    i :| 0 <= i < |nodes| && n == MapNode(nodes[i].node, described);
  }

  lemma IndexedSnoc(nodes: seq<PageLocator.TopoNode>, n: PageLocator.TopoNode)
    ensures IndexedPages(nodes + [n]) == IndexedPages(nodes) + if n.IsPage() && !n.popup then [n] else []
  {
    assert (nodes + [n])[..|nodes|] == nodes;
    var kept := PageLocator.Navigable(nodes);
    if n.popup && n.IsPage() {
      assert kept + [] == kept;
    } else {
      assert (kept + [n])[..|kept|] == kept;
    }
  }

  lemma {:induction false} IndexedOnce(nodes: seq<NodeDoc>, described: Node -> (nat, string))
    requires DistinctPages(nodes)
    ensures PageLocator.NoDuplicates(IndexedPages(MapNodes(nodes, described)))
  {
    if nodes != [] {
      var k := |nodes| - 1;
      var front := MapNodes(nodes[..k], described);
      assert forall i :: 0 <= i < k ==> nodes[..k][i] == nodes[i];
      IndexedOnce(nodes[..k], described);
      if nodes[k].node.nodeId == "" {
        assert front + [] == front;
      } else {
        var n := MapNode(nodes[k].node, described);
        IndexedSnoc(front, n);
        if n in IndexedPages(front) && n.IsPage() {
          var i := PageFromDoc(nodes[..k], described, n);
          assert false;
        }
      }
    }
  }

  lemma FlatMap(d: TopologyDoc, described: Node -> (nat, string))
    ensures PageLocator.Flat(MapTasks(d, described)) == MapNodes(d.graph.nodes, described)
  {
    var nodes := MapNodes(d.graph.nodes, described);
    assert [nodes][..0] == [];
    assert [] + nodes == nodes;
  }

  /** On a validated map every page has an id and no page is listed twice.  So wherever the search
      starts, it finds nothing exactly when a full scan would, and tests no page twice. */
  lemma ValidatedMapIsSearched(d: TopologyDoc, described: Node -> (nat, string), nodeMap: map<string, PageLocator.TopoNode>,
      pages: seq<PageLocator.TopoNode>, links: Option<PageLocator.Links>, current: string)
    requires ValidTopology(d) && PageLocator.IndexOf(PageLocator.Flat(MapTasks(d, described)), nodeMap, pages)
    ensures PageLocator.AgreesWithFullScan(PageLocator.NearTier(nodeMap, links, current), pages)
    ensures PageLocator.NoDuplicates(pages)
  {
    hide PageLocator.AgreesWithFullScan, PageLocator.NoDuplicates, PageLocator.NearTier, MapNodes, PageLocator.Flat, PageLocator.LastByKey;
    var nodes := d.graph.nodes;
    FlatMap(d, described);
    assert pages == IndexedPages(MapNodes(nodes, described));
    IndexedOnce(nodes, described);
    PageLocator.NearWithinPages(MapTasks(d, described), nodeMap, pages, links, current);
    forall n | n in pages ensures n.pageId != "" {
      var i := PageFromDoc(nodes, described, n);
      PageIsNamed(d, i);
    }
    PageLocator.AgreesIffNamed(PageLocator.NearTier(nodeMap, links, current), pages);
  }

  lemma PageIsNamed(d: TopologyDoc, i: nat)
    requires ValidTopology(d) && i < |d.graph.nodes| && IsPage(d.graph.nodes[i])
    ensures d.graph.nodes[i].node.pageId != ""
  {
    hide ValidEdge, Distinct, DistinctPages;
    assert ValidNode(d.graph.nodes[i]);
    assert Blank("");
  }
}
