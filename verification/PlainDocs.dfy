/** Small documents made of plain words, which pass validation as soon as their shape is right. */
module PlainDocs {
  import opened Common
  import opened Runtime
  import opened Schema
  import opened Loader

  /** Nothing to strip, and not blank. */
  predicate Plain(s: string) {
    s != "" && !IsSpace(s[0]) && !IsSpace(s[|s| - 1])
  }

  lemma WordIsPlain(s: string)
    requires Plain(s)
    ensures Trimmed(s) && !Blank(s)
  {
  }

  function NodeOf(id: string, nodeType: string, functionId: string, enabled: bool): NodeDoc {
    NodeDoc(Node(id, id, nodeType, enabled, functionId, if nodeType == "function_return" then "system_exception" else "", "", false, Null), true)
  }

  function EdgeOf(id: string, source: string, target: string, port: string): EdgeDoc {
    EdgeDoc(id, Edge(source, target, port, port, "workflow"), false)
  }

  function GraphOf(id: string, entry: string, nodes: seq<NodeDoc>, edges: seq<EdgeDoc>): GraphDoc {
    GraphDoc(id, entry, nodes, edges, false)
  }

  /** A function whose entry is its first node. */
  function FunctionOf(id: string, nodes: seq<NodeDoc>, edges: seq<EdgeDoc>): FunctionDoc
    requires nodes != []
  {
    FunctionDoc(id, id, "", [], [], [], [Item("system_exception", "x", "")], GraphOf(id, nodes[0].node.nodeId, nodes, edges))
  }

  function WorkflowOf(nodes: seq<NodeDoc>, edges: seq<EdgeDoc>, functions: seq<FunctionDoc>): WorkflowDoc {
    WorkflowDoc(GraphOf("main", "", nodes, edges), functions, [], true)
  }

  predicate PlainNode(n: NodeDoc) {
    && n.shapeOk && Plain(n.node.nodeId) && Plain(n.node.nodeName) && Plain(n.node.nodeType)
    && |n.node.nodeType| != |"call_task"| && |n.node.nodeType| != |"page_state"|
  }

  predicate PlainEdge(e: EdgeDoc, ids: set<string>) {
    && Plain(e.edgeId) && Plain(e.edge.port) && Plain(e.edge.portId) && !e.crosses
    && e.edge.source in ids && e.edge.target in ids && Plain(e.edge.source) && Plain(e.edge.target)
  }

  predicate PlainGraph(g: GraphDoc) {
    && Plain(g.graphId) && !g.obsolete
    && (forall i :: 0 <= i < |g.nodes| ==> PlainNode(g.nodes[i])) && Distinct(NodeIdList(g.nodes))
    && (forall i :: 0 <= i < |g.edges| ==> PlainEdge(g.edges[i], Elements(NodeIdList(g.nodes)))) && Distinct(EdgeIdList(g.edges))
  }

  lemma PlainGraphIsValid(g: GraphDoc)
    requires PlainGraph(g)
    ensures ValidGraph(g, true)
  {
    hide Blank, Elements, Distinct;
    WordIsPlain(g.graphId);
    forall i | 0 <= i < |g.nodes| ensures ValidNode(g.nodes[i]) {
      NodeIsValid(g.nodes[i]);
    }
    forall i | 0 <= i < |g.edges| ensures ValidEdge(g.edges[i], Elements(NodeIdList(g.nodes))) {
      EdgeIsValid(g.edges[i], Elements(NodeIdList(g.nodes)));
    }
  }

  lemma NodeIsValid(n: NodeDoc)
    requires PlainNode(n)
    ensures ValidNode(n)
  {
    hide Blank;
    WordIsPlain(n.node.nodeId);
    WordIsPlain(n.node.nodeName);
    WordIsPlain(n.node.nodeType);
  }

  lemma EdgeIsValid(e: EdgeDoc, ids: set<string>)
    requires PlainEdge(e, ids)
    ensures ValidEdge(e, ids)
  {
    hide Blank;
    WordIsPlain(e.edgeId);
    WordIsPlain(e.edge.source);
    WordIsPlain(e.edge.target);
    WordIsPlain(e.edge.port);
    WordIsPlain(e.edge.portId);
  }

  /** The first node is the only entry, and some node returns. */
  predicate PlainBody(nodes: seq<NodeDoc>) {
    && nodes != [] && nodes[0].node.nodeType == "function_entry"
    && (forall i :: 0 < i < |nodes| ==> nodes[i].node.nodeType != "function_entry")
    && (exists i :: 0 <= i < |nodes| && nodes[i].node.nodeType == "function_return")
    && (forall i :: 0 <= i < |nodes| && nodes[i].node.nodeType == "function_return" ==> nodes[i].node.outcomeId == "system_exception")
  }

  lemma PlainFunctionIsValid(id: string, nodes: seq<NodeDoc>, edges: seq<EdgeDoc>)
    requires nodes != [] && PlainBody(nodes) && PlainGraph(GraphOf(id, nodes[0].node.nodeId, nodes, edges))
    ensures ValidFunction(FunctionOf(id, nodes, edges), {})
  {
    hide ValidGraph, PlainGraph, Strip, PlainBody;
    var f := FunctionOf(id, nodes, edges);
    PlainGraphIsValid(f.graph);
    PlainParts(f.graph);
    WordIsPlain(id);
    NothingBlank();
    assert ParameterItems([]) == [] && LocalItems([]) == [] && IdList([]) == [] && NameList([]) == [];
    PlainOutcomes();
    PlainBodyIsValid(f.graph);
  }

  lemma PlainParts(g: GraphDoc)
    requires PlainGraph(g)
    ensures Plain(g.graphId) && forall i :: 0 <= i < |g.nodes| ==> Plain(g.nodes[i].node.nodeId)
  {
    assert forall i :: 0 <= i < |g.nodes| ==> PlainNode(g.nodes[i]);
  }

  lemma NothingBlank()
    ensures Strip("") == ""
  {
  }

  lemma PlainOutcomes()
    ensures ValidOutcomes([Item("system_exception", "x", "")])
    ensures Elements(IdList([Item("system_exception", "x", "")])) == {"system_exception"}
  {
    hide Strip;
    WordIsPlain("system_exception");
    WordIsPlain("x");
    assert IdList([Item("system_exception", "x", "")]) == ["system_exception"];
  }

  lemma PlainBodyIsValid(g: GraphDoc)
    requires PlainBody(g.nodes) && g.entry == g.nodes[0].node.nodeId && Plain(g.entry)
    ensures ValidEntry(g) && ValidReturns(g, {"system_exception"})
  {
    hide Strip;
    WordIsPlain(g.entry);
  }

  /** A function of three nodes and an edge. */
  lemma ThreeNodesAreValid(id: string, docs: seq<NodeDoc>, edge: EdgeDoc)
    requires Plain(id) && |docs| == 3 && PlainBody(docs) && PlainNode(docs[0]) && PlainNode(docs[1]) && PlainNode(docs[2])
    requires var a, b, c := docs[0].node.nodeId, docs[1].node.nodeId, docs[2].node.nodeId;
      a != b && a != c && b != c && PlainEdge(edge, {a, b, c})
    ensures ValidFunction(FunctionOf(id, docs, [edge]), {})
  {
    hide ValidFunction, Plain, PlainNode, PlainEdge, PlainBody;
    assert NodeIdList(docs) == [docs[0].node.nodeId, docs[1].node.nodeId, docs[2].node.nodeId];
    assert Elements(NodeIdList(docs)) == {docs[0].node.nodeId, docs[1].node.nodeId, docs[2].node.nodeId};
    PlainFunctionIsValid(id, docs, [edge]);
  }

  /** An entry, a call and a return. */
  function CallerDocs(a: string, b: string, z: string, callee: string): seq<NodeDoc> {
    [NodeOf(a, "function_entry", "", true), NodeOf(b, "call_function", callee, true), NodeOf(z, "function_return", "", true)]
  }

  lemma CallerIsValid(id: string, a: string, b: string, z: string, callee: string, edge: EdgeDoc)
    requires Plain(id) && Plain(a) && Plain(b) && Plain(z) && a != b && a != z && b != z && PlainEdge(edge, {a, b, z})
    ensures ValidFunction(FunctionOf(id, CallerDocs(a, b, z, callee), [edge]), {})
  {
    hide ValidFunction, Plain, PlainEdge;
    var docs := CallerDocs(a, b, z, callee);
    PlainTypes();
    assert docs[2].node.nodeType == "function_return";
    ThreeNodesAreValid(id, docs, edge);
  }

  /** An entry, a return and a disabled last node. */
  function FallingDocs(a: string, b: string, z: string): seq<NodeDoc> {
    [NodeOf(a, "function_entry", "", true), NodeOf(b, "function_return", "", true), NodeOf(z, "log", "", false)]
  }

  lemma FallingIsValid(id: string, a: string, b: string, z: string, edge: EdgeDoc)
    requires Plain(id) && Plain(a) && Plain(b) && Plain(z) && a != b && a != z && b != z && PlainEdge(edge, {a, b, z})
    ensures ValidFunction(FunctionOf(id, FallingDocs(a, b, z), [edge]), {})
  {
    hide ValidFunction, Plain, PlainEdge;
    var docs := FallingDocs(a, b, z);
    PlainTypes();
    assert docs[1].node.nodeType == "function_return";
    ThreeNodesAreValid(id, docs, edge);
  }

  lemma PlainTypes()
    ensures Plain("function_entry") && Plain("call_function") && Plain("function_return") && Plain("log")
    ensures |"function_entry"| == 14 && |"call_function"| == 13 && |"function_return"| == 15
  {
  }

  lemma IdsOfThree(docs: seq<NodeDoc>)
    requires |docs| == 3
    ensures NodeIds(DocNodes(docs)) == {docs[0].node.nodeId, docs[1].node.nodeId, docs[2].node.nodeId}
  {
    var ids := NodeIds(DocNodes(docs));
    assert DocNodes(docs)[0].nodeId in ids && DocNodes(docs)[1].nodeId in ids && DocNodes(docs)[2].nodeId in ids;
  }

  /** What documents with one function, or two, load to. */
  lemma LoadsOne(w: WorkflowDoc, pageMap: PageMap, f: FunctionDoc)
    requires w.functions == [f]
    ensures var p := Load(w, pageMap);
      && p.tasks == map["main" := MainTask(w.main)][f.functionId := FunctionTask(f)]
      && p.edges == EdgesOf(w.main.edges) + EdgesOf(f.graph.edges)
  {
    hide EdgesOf;
    var base := map["main" := MainTask(w.main)];
    assert [f][..0] == [] && FunctionEdges([]) == [];
    assert AddFunctions(base, [f]) == AddFunctions(base, [f][..0])[f.functionId := FunctionTask(f)];
    assert FunctionEdges([f]) == [] + EdgesOf(f.graph.edges) == EdgesOf(f.graph.edges);
  }

  lemma LoadsTwo(w: WorkflowDoc, pageMap: PageMap, f: FunctionDoc, g: FunctionDoc)
    requires w.functions == [f, g]
    ensures var p := Load(w, pageMap);
      && p.tasks == map["main" := MainTask(w.main)][f.functionId := FunctionTask(f)][g.functionId := FunctionTask(g)]
      && p.edges == EdgesOf(w.main.edges) + (EdgesOf(f.graph.edges) + EdgesOf(g.graph.edges))
  {
    hide EdgesOf;
    var one := w.(functions := [f]);
    LoadsOne(one, pageMap, f);
    var base := map["main" := MainTask(w.main)];
    assert [f, g][..1] == [f];
    assert AddFunctions(base, [f, g]) == AddFunctions(base, [f])[g.functionId := FunctionTask(g)];
    assert [f][..0] == [] && FunctionEdges([]) == [];
    assert FunctionEdges([f]) == [] + EdgesOf(f.graph.edges) == EdgesOf(f.graph.edges);
    assert FunctionEdges([f, g]) == FunctionEdges([f]) + EdgesOf(g.graph.edges);
  }

  /** Every call names one of the functions, other than its owner. */
  predicate PlainCalls(nodes: seq<NodeDoc>, owner: string, functions: seq<FunctionDoc>) {
    forall i :: 0 <= i < |nodes| && nodes[i].node.nodeType == "call_function" ==> PlainCall(nodes[i].node.functionId, owner, functions)
  }

  predicate PlainCall(f: string, owner: string, functions: seq<FunctionDoc>) {
    Plain(f) && f != owner && exists j :: 0 <= j < |functions| && functions[j].functionId == f
  }

  lemma PlainCallsAreValid(g: GraphDoc, owner: string, functions: seq<FunctionDoc>)
    requires PlainCalls(g.nodes, owner, functions)
    ensures ValidCalls(g, owner, FunctionIds(functions))
  {
    hide Strip;
    forall i | 0 <= i < |g.nodes| && g.nodes[i].node.nodeType == "call_function"
      ensures Strip(g.nodes[i].node.functionId) in FunctionIds(functions) && Strip(g.nodes[i].node.functionId) != owner
    {
      var f := g.nodes[i].node.functionId;
      WordIsPlain(f);
      var j :| 0 <= j < |functions| && functions[j].functionId == f;
      assert FunctionIdList(functions)[j] == f;
    }
  }

  lemma PlainWorkflowIsValid(w: WorkflowDoc)
    requires w.versionOk && w.folders == [] && PlainGraph(w.main) && w.main.graphId == "main"
    requires forall i :: 0 <= i < |w.functions| ==> ValidFunction(w.functions[i], {}) && Plain(w.functions[i].functionId) && w.functions[i].name == w.functions[i].functionId
    requires forall i, j :: 0 <= i < j < |w.functions| ==> w.functions[i].functionId != w.functions[j].functionId
    requires PlainCalls(w.main.nodes, "main", w.functions)
    requires forall i :: 0 <= i < |w.functions| ==> PlainCalls(w.functions[i].graph.nodes, w.functions[i].functionId, w.functions)
    ensures ValidWorkflow(w)
  {
    hide Strip, ValidFunction, ValidGraph, PlainCalls, ValidCalls;
    PlainGraphIsValid(w.main);
    PlainCallsAreValid(w.main, "main", w.functions);
    forall i | 0 <= i < |w.functions| ensures ValidCalls(w.functions[i].graph, w.functions[i].functionId, FunctionIds(w.functions)) {
      PlainCallsAreValid(w.functions[i].graph, w.functions[i].functionId, w.functions);
    }
    forall i | 0 <= i < |w.functions| ensures Strip(w.functions[i].functionId) == w.functions[i].functionId {
      WordIsPlain(w.functions[i].functionId);
    }
    assert IdList(w.folders) == [] && NameList(w.folders) == [] && Elements([]) == {};
  }
}
