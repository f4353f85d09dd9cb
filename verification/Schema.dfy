/** Version-3 project documents and their validator.  Each check is a loop growing the set of ids
    seen so far; each is proved to accept exactly the documents its declarative counterpart
    describes. */
module Schema {
  import opened Common
  import opened Runtime

  const MAIN_GRAPH_ID := "main"
  const EXCEPTION_OUTCOME := "system_exception"
  const VALUE_TYPES := {"string", "number", "bool", "boolean", "list", "dict", "point", "region", "image_asset", "page", "window", "any"}

  /** `shapeOk` is the outcome of the purely structural field checks of `_validate_node`. */
  datatype NodeDoc = NodeDoc(node: Node, shapeOk: bool)

  /** `crosses`: one of the removed cross-graph fields is present. */
  datatype EdgeDoc = EdgeDoc(edgeId: string, edge: Edge, crosses: bool)

  datatype GraphDoc = GraphDoc(graphId: string, entry: string, nodes: seq<NodeDoc>, edges: seq<EdgeDoc>, obsolete: bool)

  /** An id with a display name and a value type, as in parameters, locals and outputs. */
  datatype Item = Item(id: string, name: string, kind: string)

  datatype FunctionDoc = FunctionDoc(
    functionId: string,
    name: string,
    folderId: string,
    parameters: seq<ParamDecl>,
    locals: seq<LocalDecl>,
    outputs: seq<Item>,
    outcomes: seq<Item>,
    graph: GraphDoc)

  datatype WorkflowDoc = WorkflowDoc(main: GraphDoc, functions: seq<FunctionDoc>, folders: seq<Item>, versionOk: bool)

  datatype FormatError =
    | BadVersion | BadNode | DuplicateNode | BadEdge | DuplicateEdge | MissingGraphId | ObsoleteField
    | BadItem | BadFunction | UnknownFolder | MissingExceptionOutcome | GraphIdMismatch | BadEntry | NoReturn
    | UnknownOutcome | BadFolder | DuplicateFunction | DuplicatePage | DanglingReference | SelfReference

  predicate Blank(s: string) {
    Strip(s) == ""
  }

  predicate Distinct(ids: seq<string>) {
    forall i, j :: 0 <= i < j < |ids| ==> ids[i] != ids[j]
  }

  /** One more id keeps the list distinct exactly when it has not been seen. */
  lemma DistinctStep(ids: seq<string>, i: nat)
    requires i < |ids|
    ensures Elements(ids[..i + 1]) == Elements(ids[..i]) + {ids[i]}
    ensures Distinct(ids[..i + 1]) <==> Distinct(ids[..i]) && ids[i] !in Elements(ids[..i])
    ensures Distinct(ids) ==> Distinct(ids[..i + 1])
  {
    assert ids[..i + 1] == ids[..i] + [ids[i]];
  }

  lemma DistinctEnds(ids: seq<string>)
    ensures ids[..|ids|] == ids
    ensures Distinct(ids[..0]) && Elements(ids[..0]) == {}
  {
  }

  // ---------------------------------------------------------------- graphs

  predicate ValidNode(n: NodeDoc) {
    && n.shapeOk
    && !Blank(n.node.nodeId) && !Blank(n.node.nodeName) && !Blank(n.node.nodeType)
    && n.node.nodeType != "call_task"
    && (n.node.nodeType == "page_state" ==> !Blank(n.node.pageId))
  }

  function DocNodes(nodes: seq<NodeDoc>): (r: seq<Node>)
    ensures |r| == |nodes| && forall i :: 0 <= i < |nodes| ==> r[i] == nodes[i].node
  {
    seq(|nodes|, i requires 0 <= i < |nodes| => nodes[i].node)
  }

  predicate ValidEdge(e: EdgeDoc, nodeIds: set<string>) {
    && !Blank(e.edgeId) && !Blank(e.edge.source) && !Blank(e.edge.target) && !Blank(e.edge.port) && !Blank(e.edge.portId)
    && !e.crosses
    && e.edge.source in nodeIds && e.edge.target in nodeIds
  }

  function NodeIdList(nodes: seq<NodeDoc>): seq<string> {
    seq(|nodes|, i requires 0 <= i < |nodes| => nodes[i].node.nodeId)
  }

  function EdgeIdList(edges: seq<EdgeDoc>): seq<string> {
    seq(|edges|, i requires 0 <= i < |edges| => edges[i].edgeId)
  }

  predicate ValidGraph(g: GraphDoc, needsId: bool) {
    && (needsId ==> !Blank(g.graphId))
    && !g.obsolete
    && (forall i :: 0 <= i < |g.nodes| ==> ValidNode(g.nodes[i]))
    && Distinct(NodeIdList(g.nodes))
    && (forall i :: 0 <= i < |g.edges| ==> ValidEdge(g.edges[i], Elements(NodeIdList(g.nodes))))
    && Distinct(EdgeIdList(g.edges))
  }

  /** `validate_canvas_graph` */
  method ValidateGraph(g: GraphDoc, needsId: bool) returns (error: Option<FormatError>)
    ensures error.None? <==> ValidGraph(g, needsId)
  {
    hide Distinct, Elements, ValidNode, ValidEdge;
    if needsId && Blank(g.graphId) { return Some(MissingGraphId); }
    if g.obsolete { return Some(ObsoleteField); }
    ghost var nodeList, edgeList := NodeIdList(g.nodes), EdgeIdList(g.edges);
    DistinctEnds(nodeList);
    DistinctEnds(edgeList);
    var nodeIds: set<string> := {};
    for i := 0 to |g.nodes|
      invariant forall j :: 0 <= j < i ==> ValidNode(g.nodes[j])
      invariant Distinct(nodeList[..i]) && nodeIds == Elements(nodeList[..i])
    {
      DistinctStep(nodeList, i);
      if !ValidNode(g.nodes[i]) { return Some(BadNode); }
      if g.nodes[i].node.nodeId in nodeIds { return Some(DuplicateNode); }
      nodeIds := nodeIds + {g.nodes[i].node.nodeId};
    }
    var edgeIds: set<string> := {};
    for i := 0 to |g.edges|
      invariant forall j :: 0 <= j < i ==> ValidEdge(g.edges[j], nodeIds)
      invariant Distinct(edgeList[..i]) && edgeIds == Elements(edgeList[..i])
    {
      DistinctStep(edgeList, i);
      if !ValidEdge(g.edges[i], nodeIds) { return Some(BadEdge); }
      if g.edges[i].edgeId in edgeIds { return Some(DuplicateEdge); }
      edgeIds := edgeIds + {g.edges[i].edgeId};
    }
    return None;
  }

  // ---------------------------------------------------------------- functions

  function KindOf(kind: string): string {
    if kind == "" then "any" else kind
  }

  predicate ValidItem(x: Item) {
    !Blank(x.id) && !Blank(x.name) && KindOf(x.kind) in VALUE_TYPES
  }

  function IdList(items: seq<Item>): seq<string> {
    seq(|items|, i requires 0 <= i < |items| => Strip(items[i].id))
  }

  function NameList(items: seq<Item>): seq<string> {
    seq(|items|, i requires 0 <= i < |items| => Strip(items[i].name))
  }

  /** Ids and names are compared after stripping. */
  predicate ValidItems(items: seq<Item>) {
    (forall i :: 0 <= i < |items| ==> ValidItem(items[i])) && Distinct(IdList(items)) && Distinct(NameList(items))
  }

  /** `_validate_contract_items` */
  method ValidateItems(items: seq<Item>) returns (error: Option<FormatError>)
    ensures error.None? <==> ValidItems(items)
  {
    hide Distinct, Elements;
    ghost var idList, nameList := IdList(items), NameList(items);
    DistinctEnds(idList);
    DistinctEnds(nameList);
    var ids: set<string>, names: set<string> := {}, {};
    for i := 0 to |items|
      invariant forall j :: 0 <= j < i ==> ValidItem(items[j])
      invariant Distinct(idList[..i]) && ids == Elements(idList[..i])
      invariant Distinct(nameList[..i]) && names == Elements(nameList[..i])
    {
      DistinctStep(idList, i);
      DistinctStep(nameList, i);
      var id, name := Strip(items[i].id), Strip(items[i].name);
      if id == "" || name == "" || id in ids || name in names { return Some(BadItem); }
      if KindOf(items[i].kind) !in VALUE_TYPES { return Some(BadItem); }
      ids, names := ids + {id}, names + {name};
    }
    return None;
  }

  predicate ValidOutcomes(outcomes: seq<Item>) {
    && (forall i :: 0 <= i < |outcomes| ==> !Blank(outcomes[i].id) && !Blank(outcomes[i].name))
    && Distinct(IdList(outcomes))
    && EXCEPTION_OUTCOME in Elements(IdList(outcomes))
  }

  method ValidateOutcomes(outcomes: seq<Item>) returns (error: Option<FormatError>, ids: set<string>)
    ensures error.None? <==> ValidOutcomes(outcomes)
    ensures error.None? ==> ids == Elements(IdList(outcomes))
  {
    hide Distinct, Elements;
    ghost var idList := IdList(outcomes);
    DistinctEnds(idList);
    ids := {};
    for i := 0 to |outcomes|
      invariant forall j :: 0 <= j < i ==> !Blank(outcomes[j].id) && !Blank(outcomes[j].name)
      invariant Distinct(idList[..i]) && ids == Elements(idList[..i])
    {
      DistinctStep(idList, i);
      var id := Strip(outcomes[i].id);
      if id == "" || Blank(outcomes[i].name) || id in ids { return Some(BadItem), ids; }
      ids := ids + {id};
    }
    return if EXCEPTION_OUTCOME in ids then None else Some(MissingExceptionOutcome), ids;
  }

  function ParameterItems(decls: seq<ParamDecl>): seq<Item> {
    seq(|decls|, i requires 0 <= i < |decls| => Item(decls[i].id, decls[i].name, decls[i].kind))
  }

  function LocalItems(decls: seq<LocalDecl>): seq<Item> {
    seq(|decls|, i requires 0 <= i < |decls| => Item(decls[i].id, decls[i].name, decls[i].kind))
  }

  /** Exactly one entry node, carrying the declared entry id. */
  predicate ValidEntry(g: GraphDoc) {
    exists i :: 0 <= i < |g.nodes| && g.nodes[i].node.nodeType == "function_entry" && g.nodes[i].node.nodeId == Strip(g.entry)
      && forall j :: 0 <= j < |g.nodes| && g.nodes[j].node.nodeType == "function_entry" ==> j == i
  }

  predicate ValidReturns(g: GraphDoc, outcomes: set<string>) {
    && (exists i :: 0 <= i < |g.nodes| && g.nodes[i].node.nodeType == "function_return")
    && (forall i :: 0 <= i < |g.nodes| && g.nodes[i].node.nodeType == "function_return" ==> g.nodes[i].node.outcomeId in outcomes)
  }

  predicate ValidFunction(f: FunctionDoc, folderIds: set<string>) {
    && !Blank(f.functionId) && !Blank(f.name)
    && (Strip(f.folderId) != "" ==> Strip(f.folderId) in folderIds)
    && ValidItems(ParameterItems(f.parameters)) && ValidItems(LocalItems(f.locals)) && ValidItems(f.outputs)
    && ValidOutcomes(f.outcomes)
    && ValidGraph(f.graph, true)
    && f.graph.graphId == Strip(f.functionId)
    && ValidEntry(f.graph)
    && ValidReturns(f.graph, Elements(IdList(f.outcomes)))
  }

  method ValidateEntry(g: GraphDoc) returns (ok: bool)
    ensures ok <==> ValidEntry(g)
  {
    var found: seq<nat> := [];
    for i := 0 to |g.nodes|
      invariant forall k :: 0 <= k < |found| ==> found[k] < i && g.nodes[found[k]].node.nodeType == "function_entry"
      invariant forall j :: 0 <= j < i && g.nodes[j].node.nodeType == "function_entry" ==> j in found
      invariant forall k, l :: 0 <= k < l < |found| ==> found[k] < found[l]
    {
      if g.nodes[i].node.nodeType == "function_entry" {
        found := found + [i];
      }
    }
    if |found| != 1 {
      if |found| >= 2 { assert found[0] != found[1]; }
      return false;
    }
    assert forall j :: 0 <= j < |g.nodes| && g.nodes[j].node.nodeType == "function_entry" ==> j == found[0];
    return g.nodes[found[0]].node.nodeId == Strip(g.entry);
  }

  method ValidateReturns(g: GraphDoc, outcomes: set<string>) returns (error: Option<FormatError>)
    ensures error.None? <==> ValidReturns(g, outcomes)
  {
    var any := false;
    for i := 0 to |g.nodes|
      invariant any <==> exists j :: 0 <= j < i && g.nodes[j].node.nodeType == "function_return"
      invariant forall j :: 0 <= j < i && g.nodes[j].node.nodeType == "function_return" ==> g.nodes[j].node.outcomeId in outcomes
    {
      if g.nodes[i].node.nodeType == "function_return" {
        any := true;
        if g.nodes[i].node.outcomeId !in outcomes { return Some(UnknownOutcome); }
      }
    }
    return if any then None else Some(NoReturn);
  }

  /** `_validate_function` */
  method ValidateFunction(f: FunctionDoc, folderIds: set<string>) returns (error: Option<FormatError>)
    ensures error.None? <==> ValidFunction(f, folderIds)
  {
    if Blank(f.functionId) || Blank(f.name) { return Some(BadFunction); }
    if Strip(f.folderId) != "" && Strip(f.folderId) !in folderIds { return Some(UnknownFolder); }
    error := ValidateItems(ParameterItems(f.parameters));
    if error.Some? { return; }
    error := ValidateItems(LocalItems(f.locals));
    if error.Some? { return; }
    error := ValidateItems(f.outputs);
    if error.Some? { return; }
    var outcomeIds;
    error, outcomeIds := ValidateOutcomes(f.outcomes);
    if error.Some? { return; }
    error := ValidateGraph(f.graph, true);
    if error.Some? { return; }
    if f.graph.graphId != Strip(f.functionId) { return Some(GraphIdMismatch); }
    var entryOk := ValidateEntry(f.graph);
    if !entryOk { return Some(BadEntry); }
    error := ValidateReturns(f.graph, outcomeIds);
  }

  // ---------------------------------------------------------------- workflows

  predicate ValidFolders(folders: seq<Item>) {
    && (forall i :: 0 <= i < |folders| ==> !Blank(folders[i].id) && !Blank(folders[i].name))
    && Distinct(IdList(folders)) && Distinct(NameList(folders))
  }

  function FunctionIdList(functions: seq<FunctionDoc>): seq<string> {
    seq(|functions|, i requires 0 <= i < |functions| => Strip(functions[i].functionId))
  }

  function FunctionNameList(functions: seq<FunctionDoc>): seq<string> {
    seq(|functions|, i requires 0 <= i < |functions| => functions[i].name)
  }

  function FunctionIds(functions: seq<FunctionDoc>): set<string> {
    Elements(FunctionIdList(functions))
  }

  predicate UniqueFunctions(functions: seq<FunctionDoc>) {
    Distinct(FunctionIdList(functions)) && Distinct(FunctionNameList(functions))
  }

  /** Every call in `g` names a known function other than its owner. */
  predicate ValidCalls(g: GraphDoc, owner: string, functionIds: set<string>) {
    forall i :: 0 <= i < |g.nodes| && g.nodes[i].node.nodeType == "call_function" ==>
      Strip(g.nodes[i].node.functionId) in functionIds && Strip(g.nodes[i].node.functionId) != owner
  }

  predicate ValidWorkflow(w: WorkflowDoc) {
    && w.versionOk
    && ValidGraph(w.main, true) && w.main.graphId == MAIN_GRAPH_ID
    && ValidFolders(w.folders)
    && (forall i :: 0 <= i < |w.functions| ==> ValidFunction(w.functions[i], Elements(IdList(w.folders))))
    && UniqueFunctions(w.functions)
    && ValidCalls(w.main, MAIN_GRAPH_ID, FunctionIds(w.functions))
    && (forall i :: 0 <= i < |w.functions| ==> ValidCalls(w.functions[i].graph, w.functions[i].functionId, FunctionIds(w.functions)))
  }

  method ValidateFolders(folders: seq<Item>) returns (error: Option<FormatError>, ids: set<string>)
    ensures error.None? <==> ValidFolders(folders)
    ensures error.None? ==> ids == Elements(IdList(folders))
  {
    hide Distinct, Elements;
    ghost var idList, nameList := IdList(folders), NameList(folders);
    DistinctEnds(idList);
    DistinctEnds(nameList);
    ids := {};
    var names: set<string> := {};
    for i := 0 to |folders|
      invariant forall j :: 0 <= j < i ==> !Blank(folders[j].id) && !Blank(folders[j].name)
      invariant Distinct(idList[..i]) && ids == Elements(idList[..i])
      invariant Distinct(nameList[..i]) && names == Elements(nameList[..i])
    {
      DistinctStep(idList, i);
      DistinctStep(nameList, i);
      var id, name := Strip(folders[i].id), Strip(folders[i].name);
      if id == "" || name == "" || id in ids || name in names { return Some(BadFolder), ids; }
      ids, names := ids + {id}, names + {name};
    }
    return None, ids;
  }

  method ValidateCalls(g: GraphDoc, owner: string, functionIds: set<string>) returns (error: Option<FormatError>)
    ensures error.None? <==> ValidCalls(g, owner, functionIds)
  {
    for i := 0 to |g.nodes|
      invariant forall j :: 0 <= j < i && g.nodes[j].node.nodeType == "call_function" ==>
        Strip(g.nodes[j].node.functionId) in functionIds && Strip(g.nodes[j].node.functionId) != owner
    {
      if g.nodes[i].node.nodeType == "call_function" {
        var target := Strip(g.nodes[i].node.functionId);
        if target !in functionIds { return Some(DanglingReference); }
        if target == owner { return Some(SelfReference); }
      }
    }
    return None;
  }

  method ValidateFunctions(functions: seq<FunctionDoc>, folderIds: set<string>) returns (error: Option<FormatError>,
      ids: set<string>)
    ensures error.None? <==> (forall i :: 0 <= i < |functions| ==> ValidFunction(functions[i], folderIds)) && UniqueFunctions(functions)
    ensures error.None? ==> ids == FunctionIds(functions)
  {
    hide ValidFunction, Distinct, Elements;
    ghost var idList, nameList := FunctionIdList(functions), FunctionNameList(functions);
    DistinctEnds(idList);
    DistinctEnds(nameList);
    ids := {};
    var names: set<string> := {};
    for i := 0 to |functions|
      invariant forall j :: 0 <= j < i ==> ValidFunction(functions[j], folderIds)
      invariant Distinct(idList[..i]) && ids == Elements(idList[..i])
      invariant Distinct(nameList[..i]) && names == Elements(nameList[..i])
    {
      DistinctStep(idList, i);
      DistinctStep(nameList, i);
      error := ValidateFunction(functions[i], folderIds);
      if error.Some? { return; }
      var id, name := Strip(functions[i].functionId), functions[i].name;
      if id in ids || name in names { return Some(DuplicateFunction), ids; }
      ids, names := ids + {id}, names + {name};
    }
    return None, ids;
  }

  /** `validate_workflow` accepts exactly the valid workflows. */
  method ValidateWorkflow(w: WorkflowDoc) returns (error: Option<FormatError>)
    ensures error.None? <==> ValidWorkflow(w)
  {
    hide ValidGraph, ValidFolders, ValidFunction, UniqueFunctions, ValidCalls;
    if !w.versionOk { return Some(BadVersion); }
    error := ValidateGraph(w.main, true);
    if error.Some? { return; }
    if w.main.graphId != MAIN_GRAPH_ID { return Some(GraphIdMismatch); }
    var folderIds, functionIds;
    error, folderIds := ValidateFolders(w.folders);
    if error.Some? { return; }
    error, functionIds := ValidateFunctions(w.functions, folderIds);
    if error.Some? { return; }
    error := ValidateCalls(w.main, MAIN_GRAPH_ID, functionIds);
    if error.Some? { return; }
    for i := 0 to |w.functions|
      invariant forall j :: 0 <= j < i ==> ValidCalls(w.functions[j].graph, w.functions[j].functionId, functionIds)
    {
      error := ValidateCalls(w.functions[i].graph, w.functions[i].functionId, functionIds);
      if error.Some? { return; }
    }
    return None;
  }
}
