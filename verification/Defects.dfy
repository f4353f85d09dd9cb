/** What the validators refuse, defect by defect, and what loading makes of the documents they accept. */
module Defects {
  import opened Common
  import opened Runtime
  import opened Schema
  import opened Loader

  // ---------------------------------------------------------------- graphs

  ghost predicate NodeDefect(n: NodeDoc) {
    || !n.shapeOk
    || Strip(n.node.nodeId) == "" || Strip(n.node.nodeName) == "" || Strip(n.node.nodeType) == ""
    || n.node.nodeType == "call_task"
    || (n.node.nodeType == "page_state" && Strip(n.node.pageId) == "")
  }

  ghost predicate IsNode(nodes: seq<NodeDoc>, id: string) {
    exists k :: 0 <= k < |nodes| && nodes[k].node.nodeId == id
  }

  ghost predicate EdgeDefect(nodes: seq<NodeDoc>, e: EdgeDoc) {
    || Strip(e.edgeId) == "" || Strip(e.edge.source) == "" || Strip(e.edge.target) == "" || Strip(e.edge.port) == "" || Strip(e.edge.portId) == ""
    || e.crosses
    || !IsNode(nodes, e.edge.source) || !IsNode(nodes, e.edge.target)
  }

  ghost predicate RepeatedNode(nodes: seq<NodeDoc>) {
    exists j, k :: 0 <= j < k < |nodes| && nodes[j].node.nodeId == nodes[k].node.nodeId
  }

  ghost predicate RepeatedEdge(edges: seq<EdgeDoc>) {
    exists j, k :: 0 <= j < k < |edges| && edges[j].edgeId == edges[k].edgeId
  }

  ghost predicate GraphDefect(g: GraphDoc) {
    || g.obsolete
    || (exists k :: 0 <= k < |g.nodes| && NodeDefect(g.nodes[k])) || RepeatedNode(g.nodes)
    || (exists k :: 0 <= k < |g.edges| && EdgeDefect(g.nodes, g.edges[k])) || RepeatedEdge(g.edges)
  }

  lemma NodeIdListHolds(nodes: seq<NodeDoc>, id: string)
    ensures id in Elements(NodeIdList(nodes)) <==> IsNode(nodes, id)
  {
    if k :| 0 <= k < |nodes| && nodes[k].node.nodeId == id { assert NodeIdList(nodes)[k] == id; }
  }

  lemma RepeatedNodeIff(nodes: seq<NodeDoc>)
    ensures Distinct(NodeIdList(nodes)) <==> !RepeatedNode(nodes)
  {
    var ids := NodeIdList(nodes);
    assert forall k :: 0 <= k < |nodes| ==> ids[k] == nodes[k].node.nodeId;
  }

  lemma RepeatedEdgeIff(edges: seq<EdgeDoc>)
    ensures Distinct(EdgeIdList(edges)) <==> !RepeatedEdge(edges)
  {
    var ids := EdgeIdList(edges);
    assert forall k :: 0 <= k < |edges| ==> ids[k] == edges[k].edgeId;
  }

  lemma NodeDefectIff(n: NodeDoc)
    ensures ValidNode(n) <==> !NodeDefect(n)
  {
    hide Strip;
  }

  lemma EdgeDefectIff(nodes: seq<NodeDoc>, e: EdgeDoc)
    ensures ValidEdge(e, Elements(NodeIdList(nodes))) <==> !EdgeDefect(nodes, e)
  {
    hide Strip, Elements, NodeIdList, IsNode;
    NodeIdListHolds(nodes, e.edge.source);
    NodeIdListHolds(nodes, e.edge.target);
  }

  lemma GraphDefectIff(g: GraphDoc, needsId: bool)
    ensures ValidGraph(g, needsId) <==> !GraphDefect(g) && (needsId ==> Strip(g.graphId) != "")
  {
    hide Strip, ValidNode, NodeDefect, ValidEdge, EdgeDefect, Elements, NodeIdList, EdgeIdList, Distinct, RepeatedNode, RepeatedEdge;
    RepeatedNodeIff(g.nodes);
    RepeatedEdgeIff(g.edges);
    forall k | 0 <= k < |g.nodes| ensures ValidNode(g.nodes[k]) <==> !NodeDefect(g.nodes[k]) { NodeDefectIff(g.nodes[k]); }
    forall k | 0 <= k < |g.edges|
      ensures ValidEdge(g.edges[k], Elements(NodeIdList(g.nodes))) <==> !EdgeDefect(g.nodes, g.edges[k])
    {
      EdgeDefectIff(g.nodes, g.edges[k]);
    }
  }

  // ---------------------------------------------------------------- lists of named things

  ghost predicate BlankItem(items: seq<Item>) {
    exists k :: 0 <= k < |items| && (Strip(items[k].id) == "" || Strip(items[k].name) == "")
  }

  ghost predicate RepeatedId(items: seq<Item>) {
    exists j, k :: 0 <= j < k < |items| && Strip(items[j].id) == Strip(items[k].id)
  }

  ghost predicate RepeatedName(items: seq<Item>) {
    exists j, k :: 0 <= j < k < |items| && Strip(items[j].name) == Strip(items[k].name)
  }

  /** The kinds of values, and none given, which is any. */
  const KINDS := {"string", "number", "bool", "boolean", "list", "dict", "point", "region", "image_asset", "page", "window", "any", ""}

  ghost predicate UnknownKind(items: seq<Item>) {
    exists k :: 0 <= k < |items| && items[k].kind !in KINDS
  }

  lemma RepeatedIdIff(items: seq<Item>)
    ensures Distinct(IdList(items)) <==> !RepeatedId(items)
  {
    hide Strip;
    var ids := IdList(items);
    assert forall k :: 0 <= k < |items| ==> ids[k] == Strip(items[k].id);
  }

  lemma RepeatedNameIff(items: seq<Item>)
    ensures Distinct(NameList(items)) <==> !RepeatedName(items)
  {
    hide Strip;
    var names := NameList(items);
    assert forall k :: 0 <= k < |items| ==> names[k] == Strip(items[k].name);
  }

  lemma ItemsDefectIff(items: seq<Item>)
    ensures ValidItems(items) <==> !BlankItem(items) && !RepeatedId(items) && !RepeatedName(items) && !UnknownKind(items)
  {
    hide Strip, Distinct, IdList, NameList, RepeatedId, RepeatedName;
    RepeatedIdIff(items);
    RepeatedNameIff(items);
    forall k | 0 <= k < |items|
      ensures KindOf(items[k].kind) in VALUE_TYPES <==> items[k].kind in KINDS
    {
      KnownKind(items[k].kind);
    }
  }

  lemma KnownKind(kind: string)
    ensures KindOf(kind) in VALUE_TYPES <==> kind in KINDS
  {
  }

  /** Outcomes need no kind, and the exception is always one of them. */
  ghost predicate OutcomesDefect(outcomes: seq<Item>) {
    BlankItem(outcomes) || RepeatedId(outcomes) || !IsOutcome(outcomes, "system_exception")
  }

  ghost predicate IsOutcome(outcomes: seq<Item>, id: string) {
    exists k :: 0 <= k < |outcomes| && Strip(outcomes[k].id) == id
  }

  lemma OutcomeIff(outcomes: seq<Item>, id: string)
    ensures id in Elements(IdList(outcomes)) <==> IsOutcome(outcomes, id)
  {
    hide Strip;
    if k :| 0 <= k < |outcomes| && Strip(outcomes[k].id) == id { assert IdList(outcomes)[k] == id; }
  }

  lemma OutcomesDefectIff(outcomes: seq<Item>)
    ensures ValidOutcomes(outcomes) <==> !OutcomesDefect(outcomes)
  {
    hide Strip, Distinct, IdList, Elements, RepeatedId, IsOutcome;
    RepeatedIdIff(outcomes);
    OutcomeIff(outcomes, "system_exception");
  }

  // ---------------------------------------------------------------- functions

  predicate EntryAt(g: GraphDoc, i: nat) {
    i < |g.nodes| && g.nodes[i].node.nodeType == "function_entry"
  }

  /** None, several, or one that is not the entry the graph names. */
  ghost predicate EntryDefect(g: GraphDoc) {
    || (forall i: nat :: !EntryAt(g, i))
    || (exists i: nat, j: nat :: i < j && EntryAt(g, i) && EntryAt(g, j))
    || (exists i: nat :: EntryAt(g, i) && g.nodes[i].node.nodeId != Strip(g.entry))
  }

  lemma EntryDefectIff(g: GraphDoc)
    ensures ValidEntry(g) <==> !EntryDefect(g)
  {
    hide Strip;
    if ValidEntry(g) {
      var i :| 0 <= i < |g.nodes| && g.nodes[i].node.nodeType == "function_entry" && g.nodes[i].node.nodeId == Strip(g.entry)
        && forall j :: 0 <= j < |g.nodes| && g.nodes[j].node.nodeType == "function_entry" ==> j == i;
      assert EntryAt(g, i) && forall j: nat :: EntryAt(g, j) ==> j == i;
    }
    if !EntryDefect(g) {
      var i: nat :| EntryAt(g, i);
      forall j | 0 <= j < |g.nodes| && g.nodes[j].node.nodeType == "function_entry" ensures j == i {
        assert EntryAt(g, j);
      }
    }
  }

  predicate ReturnAt(g: GraphDoc, i: nat) {
    i < |g.nodes| && g.nodes[i].node.nodeType == "function_return"
  }

  /** No return, or one of an outcome the function does not have. */
  ghost predicate ReturnDefect(g: GraphDoc, outcomes: seq<Item>) {
    || (forall i: nat :: !ReturnAt(g, i))
    || (exists i: nat :: ReturnAt(g, i) && !IsOutcome(outcomes, g.nodes[i].node.outcomeId))
  }

  lemma ReturnDefectIff(g: GraphDoc, outcomes: seq<Item>)
    ensures ValidReturns(g, Elements(IdList(outcomes))) <==> !ReturnDefect(g, outcomes)
  {
    hide IsOutcome, Elements, IdList;
    forall id ensures id in Elements(IdList(outcomes)) <==> IsOutcome(outcomes, id) { OutcomeIff(outcomes, id); }
    if ValidReturns(g, Elements(IdList(outcomes))) {
      var i :| 0 <= i < |g.nodes| && g.nodes[i].node.nodeType == "function_return";
      assert ReturnAt(g, i);
    }
    if !ReturnDefect(g, outcomes) {
      var i: nat :| ReturnAt(g, i);
      forall j | 0 <= j < |g.nodes| && g.nodes[j].node.nodeType == "function_return" ensures IsOutcome(outcomes, g.nodes[j].node.outcomeId) {
        assert ReturnAt(g, j);
      }
    }
  }

  ghost predicate ListDefect(items: seq<Item>) {
    BlankItem(items) || RepeatedId(items) || RepeatedName(items) || UnknownKind(items)
  }

  ghost predicate FunctionDefect(f: FunctionDoc, folders: seq<Item>) {
    || Strip(f.functionId) == "" || Strip(f.name) == ""
    || (Strip(f.folderId) != "" && !IsOutcome(folders, Strip(f.folderId)))
    || ListDefect(ParameterItems(f.parameters)) || ListDefect(LocalItems(f.locals)) || ListDefect(f.outputs)
    || OutcomesDefect(f.outcomes)
    || GraphDefect(f.graph) || f.graph.graphId != Strip(f.functionId)
    || EntryDefect(f.graph) || ReturnDefect(f.graph, f.outcomes)
  }

  lemma FunctionDefectIff(f: FunctionDoc, folders: seq<Item>)
    ensures ValidFunction(f, Elements(IdList(folders))) <==> !FunctionDefect(f, folders)
  {
    hide Strip, Elements, IdList, ValidItems, BlankItem, RepeatedId, RepeatedName, UnknownKind, ValidOutcomes, OutcomesDefect, ValidGraph,
      GraphDefect, ValidEntry, EntryDefect, ValidReturns, ReturnDefect, IsOutcome;
    OutcomeIff(folders, Strip(f.folderId));
    ItemsDefectIff(ParameterItems(f.parameters));
    ItemsDefectIff(LocalItems(f.locals));
    ItemsDefectIff(f.outputs);
    OutcomesDefectIff(f.outcomes);
    GraphDefectIff(f.graph, true);
    EntryDefectIff(f.graph);
    ReturnDefectIff(f.graph, f.outcomes);
    StripIsTrimmed(f.functionId);
  }

  // ---------------------------------------------------------------- workflows

  ghost predicate SameFunction(functions: seq<FunctionDoc>) {
    exists j, k :: 0 <= j < k < |functions|
      && (Strip(functions[j].functionId) == Strip(functions[k].functionId) || functions[j].name == functions[k].name)
  }

  ghost predicate IsFunctionDoc(functions: seq<FunctionDoc>, id: string) {
    exists k :: 0 <= k < |functions| && Strip(functions[k].functionId) == id
  }

  /** A call of nothing the workflow has, or of the graph's own function. */
  ghost predicate CallDefect(g: GraphDoc, owner: string, functions: seq<FunctionDoc>) {
    exists k :: 0 <= k < |g.nodes| && g.nodes[k].node.nodeType == "call_function"
      && (!IsFunctionDoc(functions, Strip(g.nodes[k].node.functionId)) || Strip(g.nodes[k].node.functionId) == owner)
  }

  lemma SameFunctionIff(functions: seq<FunctionDoc>)
    ensures UniqueFunctions(functions) <==> !SameFunction(functions)
  {
    hide Strip;
    var ids, names := FunctionIdList(functions), FunctionNameList(functions);
    assert forall k :: 0 <= k < |functions| ==> ids[k] == Strip(functions[k].functionId) && names[k] == functions[k].name;
  }

  lemma CallDefectIff(g: GraphDoc, owner: string, functions: seq<FunctionDoc>)
    ensures ValidCalls(g, owner, FunctionIds(functions)) <==> !CallDefect(g, owner, functions)
  {
    hide Strip, FunctionIds, IsFunctionDoc;
    forall id ensures id in FunctionIds(functions) <==> IsFunctionDoc(functions, id) { FunctionIdIff(functions, id); }
  }

  lemma FunctionIdIff(functions: seq<FunctionDoc>, id: string)
    ensures id in FunctionIds(functions) <==> IsFunctionDoc(functions, id)
  {
    hide Strip;
    if k :| 0 <= k < |functions| && Strip(functions[k].functionId) == id { assert FunctionIdList(functions)[k] == id; }
  }

  /** Everything a workflow can be refused for. */
  ghost predicate WorkflowDefect(w: WorkflowDoc) {
    || !w.versionOk
    || GraphDefect(w.main) || w.main.graphId != "main"
    || BlankItem(w.folders) || RepeatedId(w.folders) || RepeatedName(w.folders)
    || (exists i :: 0 <= i < |w.functions| && FunctionDefect(w.functions[i], w.folders))
    || SameFunction(w.functions)
    || CallDefect(w.main, "main", w.functions)
    || (exists i :: 0 <= i < |w.functions| && CallDefect(w.functions[i].graph, w.functions[i].functionId, w.functions))
  }

  lemma FoldersIff(folders: seq<Item>)
    ensures ValidFolders(folders) <==> !BlankItem(folders) && !RepeatedId(folders) && !RepeatedName(folders)
  {
    hide Strip, Distinct, IdList, NameList, RepeatedId, RepeatedName;
    RepeatedIdIff(folders);
    RepeatedNameIff(folders);
  }

  lemma MainIsNamed(g: GraphDoc)
    requires g.graphId == "main"
    ensures Strip(g.graphId) != ""
  {
  }

  /** A workflow is accepted exactly if it has none of these defects. */
  lemma RefusedForADefect(w: WorkflowDoc)
    ensures ValidWorkflow(w) <==> !WorkflowDefect(w)
  {
    hide Strip, Elements, IdList, ValidGraph, GraphDefect, ValidFolders, BlankItem, RepeatedId, RepeatedName, ValidFunction, FunctionDefect,
      UniqueFunctions, SameFunction, ValidCalls, CallDefect, FunctionIds;
    GraphDefectIff(w.main, true);
    if w.main.graphId == "main" { MainIsNamed(w.main); }
    FoldersIff(w.folders);
    SameFunctionIff(w.functions);
    CallDefectIff(w.main, "main", w.functions);
    forall i | 0 <= i < |w.functions|
      ensures ValidFunction(w.functions[i], Elements(IdList(w.folders))) <==> !FunctionDefect(w.functions[i], w.folders)
      ensures ValidCalls(w.functions[i].graph, w.functions[i].functionId, FunctionIds(w.functions))
        <==> !CallDefect(w.functions[i].graph, w.functions[i].functionId, w.functions)
    {
      FunctionDefectIff(w.functions[i], w.folders);
      CallDefectIff(w.functions[i].graph, w.functions[i].functionId, w.functions);
    }
  }

  // ---------------------------------------------------------------- loading

  /** The task has the nodes, the entry and the declarations of the document. */
  predicate LoadedFrom(t: Task, id: string, role: string, g: GraphDoc, parameters: seq<ParamDecl>, locals: seq<LocalDecl>) {
    && t.taskId == id && t.role == role && t.entry == g.entry && t.inputs == parameters && t.locals == locals
    && |t.nodes| == |g.nodes| && forall k :: 0 <= k < |g.nodes| ==> t.nodes[k] == g.nodes[k].node
  }

  lemma {:induction false} LastWithIdIs(functions: seq<FunctionDoc>, i: nat)
    requires i < |functions| && forall j :: i < j < |functions| ==> functions[j].functionId != functions[i].functionId
    ensures LastWithId(functions, functions[i].functionId) == Some(i)
  {
    if i < |functions| - 1 {
      assert functions[|functions| - 1].functionId != functions[i].functionId;
      LastWithIdIs(functions[..|functions| - 1], i);
    }
  }

  /** A function document becomes the task of its id, whole, unless a later one has that id too. */
  lemma LoadsWhole(w: WorkflowDoc, pageMap: PageMap, i: nat)
    requires i < |w.functions| && forall j :: i < j < |w.functions| ==> w.functions[j].functionId != w.functions[i].functionId
    ensures var p, f := Load(w, pageMap), w.functions[i];
      f.functionId in p.tasks && LoadedFrom(p.tasks[f.functionId], f.functionId, "function", f.graph, f.parameters, f.locals)
  {
    hide LastWithId;
    LastWithIdIs(w.functions, i);
    AddFunctionsLookup(map[MAIN_GRAPH_ID := MainTask(w.main)], w.functions, w.functions[i].functionId);
  }

  /** Main stays main unless a function is called so. */
  lemma LoadsMain(w: WorkflowDoc, pageMap: PageMap)
    requires forall j :: 0 <= j < |w.functions| ==> w.functions[j].functionId != "main"
    ensures var p := Load(w, pageMap); "main" in p.tasks && LoadedFrom(p.tasks["main"], "main", "main", w.main, [], []) && p.pageMap == pageMap
  {
    AddFunctionsLookup(map[MAIN_GRAPH_ID := MainTask(w.main)], w.functions, "main");
  }

  /** Nothing else is loaded. */
  lemma LoadsNothingElse(w: WorkflowDoc, pageMap: PageMap, id: string)
    ensures id in Load(w, pageMap).tasks <==> id == "main" || exists i :: 0 <= i < |w.functions| && w.functions[i].functionId == id
  {
    AddFunctionsLookup(map[MAIN_GRAPH_ID := MainTask(w.main)], w.functions, id);
    var last := LastWithId(w.functions, id);
    if last.Some? { assert w.functions[last.value].functionId == id; }
  }

  /** How many edges come before those of function `i`. */
  function EdgesBefore(w: WorkflowDoc, i: nat): nat
    requires i <= |w.functions|
  {
    if i == 0 then |w.main.edges| else EdgesBefore(w, i - 1) + |w.functions[i - 1].graph.edges|
  }

  lemma {:induction false} FunctionEdgesAt(w: WorkflowDoc, i: nat, k: nat)
    requires i < |w.functions| && k < |w.functions[i].graph.edges|
    ensures EdgesBefore(w, i) >= |w.main.edges| && EdgesBefore(w, i) + k < |w.main.edges| + |FunctionEdges(w.functions)|
    ensures FunctionEdges(w.functions)[EdgesBefore(w, i) + k - |w.main.edges|] == w.functions[i].graph.edges[k].edge
    decreases |w.functions|
  {
    hide EdgesBefore;
    var n := |w.functions| - 1;
    var front := w.(functions := w.functions[..n]);
    SameBefore(front, w, if i < n then i else n);
    FunctionEdgesLength(front);
    if i < n { FunctionEdgesAt(front, i, k); }
  }

  lemma {:induction false} SameBefore(v: WorkflowDoc, w: WorkflowDoc, j: nat)
    requires v.main == w.main && v.functions <= w.functions && j <= |v.functions|
    ensures EdgesBefore(v, j) == EdgesBefore(w, j)
  {
    if j > 0 { SameBefore(v, w, j - 1); }
  }

  lemma {:induction false} FunctionEdgesLength(w: WorkflowDoc)
    ensures EdgesBefore(w, |w.functions|) == |w.main.edges| + |FunctionEdges(w.functions)|
    decreases |w.functions|
  {
    if w.functions != [] {
      var front := w.(functions := w.functions[..|w.functions| - 1]);
      FunctionEdgesLength(front);
      SameBefore(front, w, |front.functions|);
    }
  }

  /** The project's edges are those of main and then those of the functions, in the order of the documents. */
  lemma LoadsEdgesInOrder(w: WorkflowDoc, pageMap: PageMap, i: nat, k: nat)
    ensures |Load(w, pageMap).edges| == EdgesBefore(w, |w.functions|)
    ensures k < |w.main.edges| ==> Load(w, pageMap).edges[k] == w.main.edges[k].edge
    ensures i < |w.functions| && k < |w.functions[i].graph.edges| ==>
      EdgesBefore(w, i) + k < |Load(w, pageMap).edges| && Load(w, pageMap).edges[EdgesBefore(w, i) + k] == w.functions[i].graph.edges[k].edge
  {
    FunctionEdgesLength(w);
    if i < |w.functions| && k < |w.functions[i].graph.edges| { FunctionEdgesAt(w, i, k); }
  }
}
